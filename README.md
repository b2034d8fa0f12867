# Dog toolchain in Dafny

A model of the Dog programming language toolchain (the Java sources under
`src/`): the bytecode compiler that turns source lines into a chunk, the
bytecode data model (opcodes, instructions, chunks, function prototypes,
runtime values), the stack VM that runs a chunk, the `.dogc` binary
serializer, and the module registry and import context the VM consults.
Each part follows the form of the Java it models:

- `BytecodeCompiler`'s block compilers are methods over the mutable `Chunk`
  (`Compiler`). Each is a loop over the line index with a brace-depth
  counter; it appends code and back-patches jump targets. Their contracts
  state where jumps land:
  - for `if` and `if`/`else`, the target of each JUMP_IF_FALSE and JUMP;
  - for `while`, the back jump's target;
  - for `fn`, the instructions added to the enclosing chunk and the
    prototype registered.
  They also state the errors of the header lines. The main theorem is that
  a successful `compile` yields a well-formed chunk
  (`Compiler.Compile`):
  - every jump lands inside the code or just past it;
  - every CONST_FUNC names an entry of the function table;
  - every prototype body ends in RETURN and is itself well formed.
  Each block keeps this invariant for the code it adds (`CodeGen`).
- What one statement compiles to is a function of its text
  (`Statements`), for `import`, `return`, `say`, `let`, array store,
  assignment and expression statements. So are the header checks of `if`,
  `else`, `while` and `fn`.
- The expression grammar of the inner `Parser` class is a set of functions
  (`ParseSpec`). It covers precedence climbing from equality down to
  postfix calls and indexing, plus lambdas, literals and module members.
  Each function gives the instructions and prototypes its parsing method
  appends, or the error it throws. The Parser's character-level steps are
  methods of a `Parser` class proved against those functions
  (`ExprParser`): matching, identifiers, strings, numbers, lambda headers
  and bodies, and `finish`.
- The line helpers are loops proved against scan functions over the line
  (`LexScan`, `LineScan`), with lemmas about what those scans find:
  `stripInlineComment`, `braceDelta`, `isStatementComplete`,
  `readLogicalLine`, `findTopLevelAssign` and `isIdent`.
- `Chunk`, `ModuleRegistry`, `DogContext` and `DogVM` are classes whose
  methods update their fields in place. The VM's instruction handlers and
  its dispatch loop are methods, proved against value-level functions
  (`VmSpec`): variable lookup and store through the frame stack, the closure
  snapshot, positional parameter binding, truthiness, equality and the
  integer arithmetic with its int → long → BigInteger narrowing.
- Instructions, prototypes and values are datatypes. An array value is a
  handle into a heap of element lists held by the VM, so that aliasing
  (two values naming the same array) is handle equality. A function value
  carries its prototype's identity, since functions compare by identity.
- The `.dogc` format is a set of pure functions: what `writeChunk` and the
  stream writer emit for a chunk, and what the readers take back from a byte
  string, each reader returning the value and the bytes it did not consume.
  The main theorem is the round trip: reading what was written gives back
  the chunk, with absent payloads replaced by the defaults the writer
  substitutes (`DogcFiles.StreamRoundTrip`).

Java's nullable fields and arguments are `Option`s. Java ints and longs are
unbounded integers restricted to their ranges, with wrap-around written out
where the code relies on it. Doubles are opaque 64-bit patterns: their
arithmetic, comparison, casts and printing come from a `FloatOps` record of
functions the model does not interpret. Library modules are reached through
a `Host` record of functions standing for `DogModule.call` and
`DogModule.getConstant`. Printing appends to an `output` sequence. The VM
runs with a fuel budget of instructions, so that every run ends.

Three behaviours of the compiler are kept as written:
- Inside a block, the continuation lines that a multi-line statement pulls
  in are skipped without counting their braces toward the block's depth.
  Only a nested `if`, `while` or `fn` has its later lines counted.
- Statements inside a block are compiled with the number of their first
  line, as at the top level.
- `findTopLevelAssign` takes the second `=` of a top-level `==` for an
  assignment. So a statement such as `a == b` is reported as a bad
  assignment target (`LineScan.DoubleEqualsReadAsAssignment`).

The library modules, the console and the command line are modelled as well:
- `json` (`JsonText`, `JsonValues`): minify and pretty-print are loops with
  the `inStr` and `esc` flags, proved against functions of their input. The
  main results are that minify only deletes whitespace outside literals, is
  idempotent, and undoes pretty-printing. Escaping follows section 7 of
  RFC 8259 and is proved lossless against a decoder of JSON string bodies.
  `arr` and `obj` build their text from each value's JSON text.
- `time` (`TimeLib`): the duration humanizer is a StringBuilder method
  proved against a function of the duration. Its parts add back up to the
  duration. The 64-bit arithmetic of `diff`, `max`, `min`, `clamp` and the
  `add*` family is written out, with the overflow check of `safeMul`.
- `io` and `str` (`IoLib`, `StrLib`): arrays live in a heap of element
  lists, so `push`, `pop` and `set` change an array in place for every
  alias. They are methods of an `ArrayHeap` class, proved against functions
  on the heap. `join` after `split` gives back the text, and `replace` is
  `join` of `split`.
- The console (`Console`): `tokenize` and the edit loop of `editFile` are
  methods, proved against functions of the line and of the buffer. The
  edit buffer is a class whose lines each input line changes. The model
  also covers the project-name check, the command aliases, the prompt and
  the task-history window.
- The command line (`Cli`): the mode the arguments select, the default
  output name, the argument echo, the caret under an error column, and the
  context with the seven library modules.

## Model

| member | source | states |
|---|---|---|
| OpCodes.Ordinal | src/OpCode.java:2-32 | each opcode's ordinal is its position in the enum declaration, below 32 |
| OpCodes.OrdinalInjective | src/OpCode.java:2-32 | distinct opcodes have distinct ordinals |
| OpCodes.OpCodeByOrdinal | src/DogBytecodeIO.java:426-432 | an ordinal outside [0, 32) is rejected; otherwise the opcode returned has that ordinal |
| OpCodes.OrdinalRoundTrip | src/DogBytecodeIO.java:426-432 | looking up an opcode's ordinal gives the opcode back |
| Bytecode.ConstInt | src/Instruction.java:69-72 | constInt sets the opcode, the int payload and the debug fields, and leaves every other field at its default |
| Bytecode.ConstLong | src/Instruction.java:74-77 | constLong: the same for the long payload |
| Bytecode.ConstDouble | src/Instruction.java:79-82 | constDouble: the same for the double payload |
| Bytecode.ConstBigInt | src/Instruction.java:84-87 | constBigInt: the text payload as given, possibly null |
| Bytecode.ConstStr | src/Instruction.java:89-92 | constStr: the text payload as given |
| Bytecode.ConstBool | src/Instruction.java:94-97 | constBool: the bool payload |
| Bytecode.ConstNil | src/Instruction.java:99-103 | constNil: no payload |
| Bytecode.ConstFunc | src/Instruction.java:105-108 | constFunc: funcIndex is the given index; it is -1 for every other factory |
| Bytecode.CallValue | src/Instruction.java:110-113 | callValue: argCount is the given count |
| Bytecode.Ret | src/Instruction.java:115-119 | ret: no payload |
| Bytecode.ArrayNew | src/Instruction.java:121-124 | arrayNew: argCount is the element count |
| Bytecode.ArrayGet | src/Instruction.java:126-129 | arrayGet: no payload |
| Bytecode.ArraySet | src/Instruction.java:131-134 | arraySet: no payload |
| Bytecode.Simple | src/Instruction.java:137-139 | simple: any opcode with jumpTarget and funcIndex -1, argCount 0 and isConst false |
| Bytecode.Load | src/Instruction.java:141-144 | load: the variable name |
| Bytecode.Store | src/Instruction.java:146-149 | store: the variable name |
| Bytecode.ImportMod | src/Instruction.java:151-154 | importMod: the module name |
| Bytecode.Call | src/Instruction.java:156-160 | call: module, member, argCount and isConst, the only factory that can set isConst |
| Bytecode.Jump | src/Instruction.java:162-165 | jump: jumpTarget is the given target |
| Bytecode.JumpIfFalse | src/Instruction.java:167-170 | jumpIfFalse: jumpTarget is the given target |
| Bytecode.WithTarget | src/Instruction.java:21 | patching jumpTarget, the one mutable field, changes no other field |
| Bytecode.PatchedJumpStaysShaped | src/Instruction.java:21 | a patched jump keeps the factories' field layout |
| Bytecode.NewFunctionProto | src/FunctionProto.java:9-12 | the parameters are copied in order (none for null) and a null body becomes an empty chunk |
| Chunks.Chunk.constructor | src/Chunk.java:7-8 | a new chunk has no instructions and no functions |
| Chunks.Chunk.Add | src/Chunk.java:10-13 | appends the instruction, returns the previous size, leaves the function table alone |
| Chunks.Chunk.Set | src/Chunk.java:15-17 | replaces index i only |
| Chunks.Chunk.Size | src/Chunk.java:19-21 | the number of instructions |
| Chunks.Chunk.AddFunction | src/Chunk.java:28-31 | appends the prototype, returns the previous table size, leaves the code alone; getFunction of that index gives the prototype back |
| Values.IsNumber | src/Value.java:101-103 | true exactly for INT, LONG, DOUBLE and BIGINT |
| Values.OfBigInt | src/Value.java:68-72 | a null BigInteger becomes 0, and the kind is BIGINT |
| Values.Str | src/Value.java:74-76 | a null string becomes "" |
| Values.NewArray | src/Value.java:86-91 | a fresh array (a new handle) holding the items in order; existing arrays are unchanged |
| Values.MakeFunction | src/Value.java:93-98 | a null prototype is rejected; a null closure becomes empty |
| Values.ToBigInteger | src/Value.java:141-154 | exact on INT, LONG and BIGINT, the long cast on DOUBLE, 0 for the other kinds |
| Values.FromBigInteger | src/Value.java:156-165 | INT exactly in the 32-bit range, LONG exactly in the 64-bit range outside it, BIGINT otherwise; null gives INT 0 |
| Values.ToFromBigInteger | src/Value.java:141-165 | toBigInteger(fromBigInteger(b)) == b for every b |
| Values.ShowAllPrefixNone | src/Value.java:191-201 | an element without a printable text leaves the whole array without one |
| Values.Printable | src/Value.java:168-206 | the StringBuilder loop gives "[" + the element printables joined by ", " + "]" (the `Show` text) |
| Exceptions.NewDogError | src/DogException.java:6-11 | the column is max(1, column); line, source line and message are kept |
| Exceptions.At | src/DogException.java:13-15 | the same as the constructor |
| Exceptions.FormatForLog | src/DogException.java:17-25 | starts with "DogException at line L, col C: msg"; a "Source: " line follows exactly when the source line is non-null |
| Registry.CaseInsensitiveTotal | src/ModuleRegistry.java:22-26 | any two names are ordered one way or the other by CASE_INSENSITIVE_ORDER |
| Registry.CaseInsensitiveTransitive | src/ModuleRegistry.java:22-26 | the case-insensitive order is transitive |
| Registry.ModuleRegistry.constructor | src/ModuleRegistry.java:8 | a new registry is empty |
| Registry.ModuleRegistry.Register | src/ModuleRegistry.java:10-12 | maps the module's name to it, replacing an earlier module of that name; other names unchanged |
| Registry.ModuleRegistry.Exists | src/ModuleRegistry.java:14-16 | true exactly when get finds a module |
| Registry.ModuleRegistry.Get | src/ModuleRegistry.java:18-20 | the module registered under the name, or null |
| Registry.ModuleRegistry.SortedNames | src/ModuleRegistry.java:22-25 | every registered name once, sorted case-insensitively |
| Registry.ModuleRegistry.Available | src/ModuleRegistry.java:22-26 | the sorted names joined by ", " |
| Registry.InsertKeepsSorted | src/ModuleRegistry.java:22-25 | inserting a name at its place keeps the list sorted |
| Registry.InsertKeepsDistinct | src/ModuleRegistry.java:22-25 | inserting a new name keeps the names distinct |
| Registry.DogContext.constructor | src/DogContext.java:8-14 | the context keeps the registry it is given and starts with nothing imported |
| Registry.DogContext.ImportModule | src/DogContext.java:16-22 | fails exactly for an unregistered name; otherwise adds it, idempotently; the imported set only grows |
| Registry.DogContext.RequireImported | src/DogContext.java:24-29 | fails exactly when the name was not imported |
| VmSpec.Slot | src/DogVM.java:404-423 | where storeVar writes: the innermost frame holding the name in its locals, else its closure |
| VmSpec.LookupViaSlot | src/DogVM.java:393-402 | loadVar reads from the slot storeVar would write, or from the globals when there is none |
| VmSpec.SlotDependsOnMembership | src/DogVM.java:393-423 | the slot depends only on which frames hold the name |
| VmSpec.StoreKeepsHolders | src/DogVM.java:404-423 | a store changes which frames hold a name only for the name stored, when no frame held it |
| VmSpec.LoadAfterStore | src/DogVM.java:393-423 | loading a name right after storing it gives the stored value |
| VmSpec.StoreKeepsOtherNames | src/DogVM.java:393-423 | storing one name leaves every other name's value unchanged |
| VmSpec.CaptureAgreesWithLookup | src/DogVM.java:381-402 | the captured snapshot holds exactly the visible names, each with the value loadVar gives |
| VmSpec.BindKeys | src/DogVM.java:366-370 | the new frame's locals are exactly the parameter names |
| VmSpec.BindAt | src/DogVM.java:366-370 | a parameter is bound to the argument at its position, or nil when there are fewer arguments |
| VmSpec.BindPositional | src/DogVM.java:366-370 | every parameter (the last of equal names wins) gets its positional argument or nil; extra arguments are ignored |
| VmSpec.TruthyIntegers | src/DogVM.java:460-485 | an integer is truthy exactly when it is non-zero |
| VmSpec.IsEqual | src/DogVM.java:487-515 | numbers compare by value across kinds, other kinds must match; strings and bools by value, arrays by identity, functions by prototype identity, nil equals nil |
| VmSpec.IsEqualSymmetric | src/DogVM.java:487-515 | equality is symmetric |
| VmSpec.NumAdd | src/DogVM.java:524-529 | a double operand gives a double; otherwise the exact sum, narrowed |
| VmSpec.NumSub | src/DogVM.java:531-536 | a double operand gives a double; otherwise the exact difference, narrowed |
| VmSpec.NumMul | src/DogVM.java:538-543 | a double operand gives a double; otherwise the exact product, narrowed |
| VmSpec.NumCompare | src/DogVM.java:517-522 | the sign of the exact comparison for integers, Double.compare otherwise |
| VmSpec.AddPromotesPastInt | src/DogVM.java:524-529 | INT_MAX + 1 is the LONG 2147483648, not a wrapped int |
| VM.ConstValue | src/DogVM.java:45-73 | the constant each CONST_* instruction pushes, with a missing payload read as its zero |
| VM.ConstantsLoadAsBuilt | src/DogVM.java:45-73 | every constant the factories build loads back as that value; a big literal's decimal text loads as its number |
| VM.RequireIndexInt | src/DogVM.java:438-451 | an index must be a number whose double value is integral and fits an int |
| VM.CheckJump | src/DogVM.java:453-458 | a jump target is accepted exactly when it lies in [0, size] |
| VM.IndexRead | src/DogVM.java:130-143 | ARRAY_GET needs an array and an index inside it, and gives that element |
| VM.IndexWrite | src/DogVM.java:145-152 | ARRAY_SET needs an array and a non-negative integer index |
| VM.SetGrow | src/DogVM.java:153-160 | after a[idx] = v the length is max(len, idx+1), slot idx is v, the other old slots are unchanged and the new ones nil |
| VM.Binary | src/DogVM.java:165-262 | string ADD concatenates the printables; the arithmetic and ordering operators fail with "Expected number" on non-numbers, give the exact narrowed result on integers, a double with a double operand; EQ and NEQ use isEqual |
| VM.DogVM.constructor | src/DogVM.java:11-25 | an empty stack, no globals and no frames |
| VM.DogVM.Pop | src/DogVM.java:425-430 | the top value, or "Stack underflow" on an empty stack |
| VM.DogVM.PopN | src/DogVM.java:92-94 | n pops keep the arguments in left-to-right order |
| VM.DogVM.LoadVar | src/DogVM.java:393-402 | loadVar is Lookup |
| VM.DogVM.StoreVar | src/DogVM.java:404-423 | storeVar is StoreResult, and leaves every frame's stack base alone |
| VM.DogVM.CaptureEnvSnapshot | src/DogVM.java:381-391 | the snapshot is Capture: globals, then each frame's closure and locals, outermost first |
| VM.DogVM.ExecConst | src/DogVM.java:45-73 | pushes ConstValue; an unparsable big literal is a runtime error |
| VM.DogVM.ExecConstFunc | src/DogVM.java:76-85 | a bad function index fails; otherwise pushes the prototype closed over the snapshot |
| VM.DogVM.ExecReturn | src/DogVM.java:107-115 | outside a function an error; inside, the top value (nil at the frame base) with the stack cut back to the base |
| VM.DogVM.ExecArrayNew | src/DogVM.java:118-128 | a new array of the n popped values in their original order |
| VM.DogVM.ExecArrayGet | src/DogVM.java:130-143 | pops index and array and pushes IndexRead's element or fails with its error |
| VM.DogVM.ExecArraySet | src/DogVM.java:145-162 | grows the array in place as SetGrow says and pushes the value |
| VM.DogVM.ExecBinary | src/DogVM.java:165-262 | pops b then a and pushes Binary(a, b) |
| VM.DogVM.ExecNot | src/DogVM.java:208-212 | pushes the negated truthiness |
| VM.DogVM.ExecLoad | src/DogVM.java:265-273 | pushes Lookup's value or fails with "Undefined variable" |
| VM.DogVM.ExecStore | src/DogVM.java:275-279 | pops the value and stores it as StoreResult says |
| VM.DogVM.ExecImport | src/DogVM.java:282-285 | importModule: unknown modules (a missing name included, reported as 'null') fail, known ones are added to the imported set |
| VM.DogVM.ExecCall | src/DogVM.java:287-311 | the module must be imported (a missing name never is) and registered; on success the stack below the new top is the old stack less the arguments, and the new top and the new heap are exactly what the module's getConstant, or its call on the popped arguments in order, returned |
| VM.DogVM.ExecJump | src/DogVM.java:314-326 | JUMP jumps to a checked target; JUMP_IF_FALSE pops its condition and jumps exactly when it is falsy |
| VM.DogVM.ExecPrint | src/DogVM.java:329-333 | pops a value and appends its printable to the output |
| VM.DogVM.ExecCallValue | src/DogVM.java:87-105 | pops the arguments and the callee; a non-function fails; on return the stack is non-empty and at most one deeper than the old stack less the arguments and callee, and the frames are as on entry |
| VM.DogVM.CallUserFunction | src/DogVM.java:356-379 | whether the body returns or fails, the stack is no deeper than at entry (cut back to it when higher) and the frames are restored |
| VM.DogVM.ExecuteChunk | src/DogVM.java:35-354 | runs the code from index 0; every jump target it follows lies in [0, size]; top-level code returns nil |
| VM.DogVM.ExecuteInstruction | src/DogVM.java:42-342 | the switch: the frames are kept, a jump target is at most the code size, RETURN only returns inside a function |
| VM.DogVM.ExecuteModule | src/DogVM.java:282-311 | IMPORT and CALL leave the frames alone and neither jumps nor returns |
| VM.DogVM.ExecuteLocal | src/DogVM.java:42-342 | every other instruction keeps the frames, never returns, and jumps only within the code |
| VM.DogVM.Execute | src/DogVM.java:31-33 | runs a top-level chunk outside any function |
| Bytes.FromBigEndianInverse | src/DogBytecodeIO.java:144-151 | reading n big-endian bytes gives back the number written |
| Bytes.IntRoundTrip | src/DogBytecodeIO.java:122 | readInt undoes writeInt |
| Bytes.LongRoundTrip | src/DogBytecodeIO.java:220 | readLong undoes writeLong |
| Bytes.BitsRoundTrip | src/DogBytecodeIO.java:223 | readDouble gives back the bits writeDouble wrote |
| Utf8.EncodeChar | src/DogBytecodeIO.java:447 | one to four UTF-8 bytes per scalar value, one exactly for ASCII |
| Utf8.DecodeOneEncodeChar | src/DogBytecodeIO.java:460 | decoding a character's bytes gives the character and consumes exactly those bytes |
| Utf8.DecodeEncode | src/DogBytecodeIO.java:444-461 | decoding the UTF-8 encoding of any string gives the string back |
| Utf8.EncodeInjective | src/DogBytecodeIO.java:444-450 | different strings have different encodings |
| DogcFormat.DoubleToLongBits | src/DogBytecodeIO.java:223 | every NaN is written as the canonical NaN; other bit patterns are kept |
| DogcFormat.ReadInt | src/DogBytecodeIO.java:166 | four bytes read as a signed int, or end of file |
| DogcFormat.ReadUtf | src/DogBytecodeIO.java:452-461 | a negative length is corrupt, zero is "", otherwise that many bytes decoded |
| DogcFormat.OpCodeAt | src/DogBytecodeIO.java:426-432 | an ordinal outside the enum is "Corrupt DOGC: bad opcode ordinal: " + the ordinal |
| DogcFormat.ReadSource | src/DogBytecodeIO.java:199-200 | the source line is read exactly when the has-source flag is set |
| DogcFormat.ReadStream | src/DogBytecodeIO.java:89-113 | fewer than four bytes, a wrong magic or a version other than 3 are rejected with their messages; a chunk read is preceded by the header |
| DogcErrors.ReadUtfCases | src/DogBytecodeIO.java:452-461 | readUtf's cases: end of file, negative length, empty string, too few bytes |
| DogcErrors.ReadPayloadNothing | src/DogBytecodeIO.java:311-358 | opcodes without operands read nothing |
| DogcErrors.BadOrdinalRejected | src/DogBytecodeIO.java:190-191 | an instruction with an ordinal outside the enum is corrupt |
| DogcErrors.NegativeFunctionCountRejected | src/DogBytecodeIO.java:166-168 | a negative function count is corrupt |
| DogcErrors.NegativeCodeCountRejected | src/DogBytecodeIO.java:185-187 | a negative instruction count is corrupt |
| DogcErrors.NegativeParamCountRejected | src/DogBytecodeIO.java:171-173 | a negative parameter count is corrupt |
| DogcErrors.BuildInstructionShaped | src/DogBytecodeIO.java:364-420 | buildInstruction gives the factories' field layout with the opcode and debug fields read |
| DogcNormal.Normalized | src/DogBytecodeIO.java:213-420 | the instruction read back keeps the opcode and debug fields and has the factories' layout |
| DogcNormal.NormalizedCodeAt | src/DogBytecodeIO.java:137-159 | code is normalized instruction by instruction |
| DogcNormal.NormalizedFunctionsAt | src/DogBytecodeIO.java:121-134 | normalizing keeps every function's parameters and normalizes its body |
| DogcNormal.CompleteInstructionSurvives | src/DogBytecodeIO.java:213-420 | an instruction built by a factory with its payload present (a canonical double) comes back unchanged |
| DogcNormal.AbsentPayloadsComeBackAsDefaults | src/DogBytecodeIO.java:216-273 | null payload strings come back as "" (a null big-literal text as "0"), a null int as 0, a null bool as false |
| DogcFieldRoundTrip.ReadIntField | src/DogBytecodeIO.java:166 | readInt after writeInt gives the (wrapped) int and leaves what follows |
| DogcFieldRoundTrip.ReadLongField | src/DogBytecodeIO.java:296-297 | readLong after writeLong |
| DogcFieldRoundTrip.ReadBitsField | src/DogBytecodeIO.java:299-300 | readDouble after writeDouble |
| DogcFieldRoundTrip.ReadBoolField | src/DogBytecodeIO.java:199 | readBoolean after writeBoolean |
| DogcFieldRoundTrip.ReadUtfField | src/DogBytecodeIO.java:444-461 | readUtf after writeUtf gives the string back and leaves what follows |
| DogcFieldRoundTrip.ReadCallOperandsBytes | src/DogBytecodeIO.java:343-348 | CALL's module, member, count and flag come back |
| DogcFieldRoundTrip.ReadPayloadBytes | src/DogBytecodeIO.java:213-362 | readPayload after writePayload gives the payload record for the opcode |
| DogcFieldRoundTrip.BuildNormalized | src/DogBytecodeIO.java:364-420 | building from that payload gives the normalized instruction |
| DogcFieldRoundTrip.ReadSourceBytes | src/DogBytecodeIO.java:199-200 | the has-source flag and the optional source line come back |
| DogcFieldRoundTrip.ReadInstructionBytes | src/DogBytecodeIO.java:189-203 | an instruction reads back normalized, leaving what follows |
| DogcRoundTrip.ReadParamsBytes | src/DogBytecodeIO.java:175-178 | parameter names read back as themselves |
| DogcRoundTrip.ReadCodeBytes | src/DogBytecodeIO.java:185-204 | the instructions read back normalized |
| DogcRoundTrip.ReadChunkBytes | src/DogBytecodeIO.java:119-207 | a chunk reads back normalized, its nested function tables included, using exactly its bytes |
| DogcRoundTrip.ReadFunctionsBytes | src/DogBytecodeIO.java:166-182 | the function table from entry i on reads back |
| DogcRoundTrip.ReadFunctionBytes | src/DogBytecodeIO.java:171-181 | one function (parameters, then body) reads back |
| DogcFiles.StreamRoundTrip | src/DogBytecodeIO.java:71-113 | readFromStream(writeToStream(c)) is c normalized |
| DogcFiles.HeaderlessRoundTrip | src/DogBytecodeIO.java:472-485 | the Path-based readChunk undoes the Path-based writeChunk |
| DogcFiles.MagicAsInt | src/DogBytecodeIO.java:41 | the magic bytes read as an int are 0x444F4743 |
| DogcFiles.HeaderlessRejectedByStreamReader | src/DogBytecodeIO.java:89-113 | a headerless file passes the stream reader only if its function count equals the magic |
| DogcFiles.StreamRejectedByHeaderlessReader | src/DogBytecodeIO.java:480-485 | a file with the header passes the headerless reader only if it holds over 4·0x444F4743 bytes |
| LexScan.StripInlineComment | src/BytecodeCompiler.java:716-746 | the loop returns the line up to CodeEnd: the first `#` outside a string literal (a backslash escapes the next character inside one), or the whole line |
| LexScan.CommentFromIsFirst | src/BytecodeCompiler.java:716-746 | no comment starts before the position CommentFrom finds, and one starts there unless it is the end |
| LexScan.StrippedLine | src/BytecodeCompiler.java:716-746 | the stripped line is a prefix of the line with no comment left in it, and when something was cut a comment starts exactly at the cut |
| LexScan.StripIdempotent | src/BytecodeCompiler.java:716-746 | stripping a stripped line changes nothing |
| LexScan.BraceDelta | src/BytecodeCompiler.java:748-782 | the loop returns Delta: the `{` minus the `}` outside string literals, before the comment |
| LexScan.DeltaIgnoresComment | src/BytecodeCompiler.java:748-782 | a line and its code part have the same brace balance |
| LexScan.DeltaOfPlainText | src/BytecodeCompiler.java:748-782 | on text with no quote, backslash or `#`, the balance is the count of `{` minus the count of `}` |
| LexScan.IsStatementComplete | src/BytecodeCompiler.java:670-714 | the loop returns Complete: at the end of the code part no string literal is open and no `(`, `[` or `{` is left open |
| LexScan.CompleteIgnoresComment | src/BytecodeCompiler.java:670-714 | a trailing comment never changes whether a statement is complete |
| LexScan.OpenStringIsIncomplete | src/BytecodeCompiler.java:670-714 | a line that ends inside a string literal is not complete |
| LexScan.BodyEndFromIsFirst | src/BytecodeCompiler.java:1212-1265 | the lambda-body scan stops at the first `,` `)` `]` `}` with nothing open, or `#`, outside string literals |
| LexScan.LambdaBodyIsFirstStop | src/BytecodeCompiler.java:1212-1265 | no stop lies inside the lambda body and one lies right after it, unless the body runs to the end |
| LineScan.IsIdent | src/BytecodeCompiler.java:797-809 | the loop returns IdentText: a letter or `_` followed by letters, digits and `_` (never the empty string) |
| LineScan.SkipWhitespaceSkips | src/BytecodeCompiler.java:811-824 | every skipped character is whitespace and the one the skip stops at is not |
| LineScan.IndexOfNonSpace | src/BytecodeCompiler.java:811-817 | the index of the first non-whitespace character, or the length when there is none |
| LineScan.FindExprStartIndex | src/BytecodeCompiler.java:819-824 | the first non-whitespace index at or after the given one |
| LineScan.FindTopLevelAssign | src/BytecodeCompiler.java:826-879 | the loop returns AssignIndex: the first `=` outside quotes and brackets, before any `#`, not part of `==`, `!=`, `<=` or `>=`; -1 when there is none |
| LineScan.AssignFromFound | src/BytecodeCompiler.java:826-879 | an index found holds an assignment `=` and no stop (`#` outside quotes) comes before it |
| LineScan.AssignFromIsFirst | src/BytecodeCompiler.java:826-879 | no assignment `=` lies before the index found, up to the first stop |
| LineScan.AssignIndexIsFirst | src/BytecodeCompiler.java:826-879 | the index found is an assignment `=`, and no assignment `=` lies before it (before the first stop when none is found) |
| LineScan.DoubleEqualsReadAsAssignment | src/BytecodeCompiler.java:866-875 | in `a == b` the second `=` (index 3) is taken for an assignment, and the target `a =` is no identifier |
| LineScan.ReadLogicalLine | src/BytecodeCompiler.java:626-648 | a structural line stands alone; otherwise the lines are joined with line feeds up to the first join that is complete, or to the last line, and no shorter join is complete |
| LineScan.BraceDeltaRange | src/BytecodeCompiler.java:784-792 | the sum of the brace balances of the lines after the first index up to the second, cut at the last line |
| ParseSpec.EqualityOp | src/BytecodeCompiler.java:906-920 | an operator found (`==`, `!=` or `<>`) lies in the text and is neither a jump nor CONST_FUNC |
| ParseSpec.CompareOp | src/BytecodeCompiler.java:922-945 | an operator found (`>=`, `<=`, `>`, `<`; not the start of `<>`) lies in the text and is neither a jump nor CONST_FUNC |
| ParseSpec.AdditiveOp | src/BytecodeCompiler.java:947-961 | an operator found (`+` or `-`) lies in the text and is neither a jump nor CONST_FUNC |
| ParseSpec.MultiplicativeOp | src/BytecodeCompiler.java:963-977 | an operator found (`*` or `/`) lies in the text and is neither a jump nor CONST_FUNC |
| ParseSpec.Binary | src/BytecodeCompiler.java:906-977 | the left operand's code, the right operand's code, then the operator; the code-generation invariant is kept |
| ParseSpec.Expression | src/BytecodeCompiler.java:902-904 | on success the cursor has moved forward within the text; the code has no jumps, each CONST_FUNC names an entry of the function table, and each prototype added ends in RETURN and is well formed |
| ParseSpec.Equality | src/BytecodeCompiler.java:906-920 | the same progress and invariant for an equality chain |
| ParseSpec.EqualityRest | src/BytecodeCompiler.java:908-919 | each round of the equality loop keeps them, the left operand first |
| ParseSpec.Compare | src/BytecodeCompiler.java:922-945 | the same for a comparison chain |
| ParseSpec.CompareRest | src/BytecodeCompiler.java:924-944 | each round of the comparison loop keeps them |
| ParseSpec.Additive | src/BytecodeCompiler.java:947-961 | the same for a sum |
| ParseSpec.AdditiveRest | src/BytecodeCompiler.java:949-960 | each round of the addition loop keeps them |
| ParseSpec.Multiplicative | src/BytecodeCompiler.java:963-977 | the same for a product |
| ParseSpec.MultiplicativeRest | src/BytecodeCompiler.java:965-976 | each round of the multiplication loop keeps them |
| ParseSpec.Unary | src/BytecodeCompiler.java:979-999 | the same for a unary expression |
| ParseSpec.Prefixed | src/BytecodeCompiler.java:981-995 | the same for `!` or `-` and its operand |
| ParseSpec.PrefixOp | src/BytecodeCompiler.java:981-995 | `!` appends NOT after the operand; `-` puts one instruction before it and SUB after; prototypes and position are the operand's, the invariant is kept |
| ParseSpec.OpSound | src/BytecodeCompiler.java:1415-1417 | appending an instruction that is no jump and no CONST_FUNC keeps the invariant |
| ParseSpec.Operand | src/BytecodeCompiler.java:997-998 | the same progress and invariant for a primary and its postfix operations |
| ParseSpec.Postfix | src/BytecodeCompiler.java:1001-1026 | the same for the calls and index operations after an operand |
| ParseSpec.CallSuffix | src/BytecodeCompiler.java:1005-1011 | the same for a call's arguments and CALL_VALUE |
| ParseSpec.IndexSuffix | src/BytecodeCompiler.java:1013-1022 | the same for an index and ARRAY_GET |
| ParseSpec.Items | src/BytecodeCompiler.java:1028-1045 | on success the position of the closing bracket lies ahead in the text and the items' code keeps the invariant |
| ParseSpec.ItemsRest | src/BytecodeCompiler.java:1033-1043 | each round of the item loop keeps them |
| ParseSpec.ArrayLiteral | src/BytecodeCompiler.java:1050-1069 | the same progress and invariant for an array literal and ARRAY_NEW |
| ParseSpec.Primary | src/BytecodeCompiler.java:1047-1136 | the same for a primary: array, string, parenthesis, number or word |
| ParseSpec.Paren | src/BytecodeCompiler.java:1080-1121 | the same for a lambda or a grouping |
| ParseSpec.Lambda | src/BytecodeCompiler.java:1084-1111 | the same for a lambda: its prototype's body is compiled on its own and ends in RETURN, and CONST_FUNC names the prototype's index |
| ParseSpec.Group | src/BytecodeCompiler.java:1114-1120 | the same for a parenthesized expression |
| ParseSpec.Word | src/BytecodeCompiler.java:1267-1307 | the same for true, false, nil, a variable or a module member |
| ParseSpec.Named | src/BytecodeCompiler.java:1282-1307 | the same for a name with or without `.member` |
| ParseSpec.Member | src/BytecodeCompiler.java:1283-1304 | the same for a module member or member call |
| ParseSpec.MemberCall | src/BytecodeCompiler.java:1291-1296 | the same for a member call's arguments and CALL |
| ParseSpec.Finish | src/BytecodeCompiler.java:1409-1413 | finish succeeds only at the end of the text |
| ParseSpec.Compiled | src/BytecodeCompiler.java:464-466 | parseExpression then finish: on success the whole text is consumed and the invariant holds |
| ParseSpec.IdentEnd | src/BytecodeCompiler.java:1466-1474 | the identifier scan ends within the text |
| ParseSpec.LambdaHeader | src/BytecodeCompiler.java:1151-1207 | a header found ends after its `(` and `)`, within the text |
| ParseSpec.HeaderParam | src/BytecodeCompiler.java:1171-1192 | a parameter found is a non-empty identifier and the scan moves forward within the text |
| ParseSpec.HeaderParams | src/BytecodeCompiler.java:1170-1206 | the parameter list found is longer than the one before and the scan moves forward within the text |
| ParseSpec.NumberEnd | src/BytecodeCompiler.java:1341-1373 | the number token ends within the text |
| ParseSpec.StringLiteral | src/BytecodeCompiler.java:1313-1339 | a string found ends after its closing quote, within the text |
| ParseSpec.IntegerConst | src/BytecodeCompiler.java:1384-1404 | CONST_INT in the 32-bit range, CONST_LONG in the 64-bit range, else CONST_BIGINT with the decimal text |
| ExprParser.Parser.constructor | src/BytecodeCompiler.java:894-900 | a new parser at position 0 that has parsed no call |
| ExprParser.Parser.SkipSpaces | src/BytecodeCompiler.java:1419-1422 | moves the cursor past whitespace |
| ExprParser.Parser.Match | src/BytecodeCompiler.java:1424-1430 | consumes the character exactly when it is next |
| ExprParser.Parser.Match2 | src/BytecodeCompiler.java:1432-1440 | consumes the two characters exactly when they are next |
| ExprParser.Parser.Emit | src/BytecodeCompiler.java:1415-1417 | appends the operator at the cursor's column and nothing else |
| ExprParser.Parser.MatchEqualityOp | src/BytecodeCompiler.java:906-920 | the equality loop's operator tests compute EqualityOp and move past it |
| ExprParser.Parser.MatchCompareOp | src/BytecodeCompiler.java:922-945 | the comparison loop's tests compute CompareOp and move past it |
| ExprParser.Parser.MatchAdditiveOp | src/BytecodeCompiler.java:947-961 | the addition loop's tests compute AdditiveOp and move past it |
| ExprParser.Parser.MatchMultiplicativeOp | src/BytecodeCompiler.java:963-977 | the multiplication loop's tests compute MultiplicativeOp and move past it |
| ExprParser.Parser.MatchArrow | src/BytecodeCompiler.java:1139-1146 | consumes `=>` or `->` exactly when one is next |
| ExprParser.Parser.TryParseLambdaHeader | src/BytecodeCompiler.java:1151-1207 | the parameters and the cursor after `)` as LambdaHeader gives them; on failure the cursor does not move |
| ExprParser.Parser.ReadLambdaBodySlice | src/BytecodeCompiler.java:1212-1265 | the text from the cursor up to the first stop of the lambda-body scan |
| ExprParser.Parser.EmitConstInt | src/BytecodeCompiler.java:1309-1311 | appends CONST_INT at the given column and nothing else |
| ExprParser.Parser.ParseString | src/BytecodeCompiler.java:1313-1339 | "Expected '\"'" without an opening quote; otherwise StringLiteral's value and end, or its error |
| ExprParser.Parser.ParseNumberToken | src/BytecodeCompiler.java:1341-1373 | the token from the cursor to NumberEnd |
| ExprParser.Parser.EmitNumberLiteral | src/BytecodeCompiler.java:1375-1407 | appends NumberLiteral's constant, or returns its error with nothing appended |
| ExprParser.Parser.Finish | src/BytecodeCompiler.java:1409-1413 | Finish's result and position |
| ExprParser.Parser.Peek | src/BytecodeCompiler.java:1442-1444 | the character at the cursor, or NUL past the end |
| ExprParser.Parser.PeekNext | src/BytecodeCompiler.java:1446-1448 | the character after it, or NUL |
| ExprParser.Parser.Rest | src/BytecodeCompiler.java:1454-1456 | the text from the cursor on |
| ExprParser.Parser.ParseIdent | src/BytecodeCompiler.java:1466-1474 | the identifier at the cursor, or "Expected identifier" with the cursor unmoved |
| ExprParser.ScanLambdaHeader | src/BytecodeCompiler.java:1151-1207 | the header scan computes LambdaHeader |
| ExprParser.ScanHeaderParams | src/BytecodeCompiler.java:1170-1206 | the parameter loop computes HeaderParams |
| ExprParser.ScanHeaderParam | src/BytecodeCompiler.java:1171-1192 | one round of the parameter loop computes HeaderParam |
| ExprParser.ScanIdent | src/BytecodeCompiler.java:1466-1474 | the identifier loop computes IdentEnd |
| Statements.KeywordFound | src/BytecodeCompiler.java:51-68 | a keyword that starts the trimmed line is found at the first non-blank column, and no `{` comes before it |
| Statements.CondHeader | src/BytecodeCompiler.java:51-68 | a line without `{` is an error; otherwise the condition is non-empty and the column is the keyword's |
| Statements.ElseHeader | src/BytecodeCompiler.java:167-181 | success means "else" occurs with a `{` after it; every error is at column 1 |
| Statements.FnSignature | src/BytecodeCompiler.java:324-350 | a line without `{` is an error; otherwise the name is an identifier and the column is that of `fn` |
| Statements.DropTrailingEmpty | src/BytecodeCompiler.java:352-353 | drops empty pieces from the end only, so what remains is a prefix that does not end in an empty piece |
| Statements.ParamListErrorStays | src/BytecodeCompiler.java:352-363 | once a parameter is bad, the error of the first bad one is the result |
| Statements.ImportStmt | src/BytecodeCompiler.java:443-451 | one IMPORT instruction |
| Statements.ReturnStmt | src/BytecodeCompiler.java:454-470 | the code ends in RETURN and keeps the invariant |
| Statements.ReturnValue | src/BytecodeCompiler.java:463-469 | the value's code then RETURN at the statement's line and column |
| Statements.SayStmt | src/BytecodeCompiler.java:473-491 | the code ends in PRINT and keeps the invariant |
| Statements.SayExpr | src/BytecodeCompiler.java:480-490 | the expression's code then PRINT |
| Statements.LetStmt | src/BytecodeCompiler.java:494-520 | the code ends in STORE and keeps the invariant |
| Statements.LetValue | src/BytecodeCompiler.java:514-519 | the expression's code then STORE of the name |
| Statements.ArraySetStmt | src/BytecodeCompiler.java:553-595 | an array store is recognised only when a top-level `=` is found; its code has at least three instructions and keeps the invariant |
| Statements.ArraySetCode | src/BytecodeCompiler.java:582-594 | at least three instructions and the invariant |
| Statements.ArraySetValue | src/BytecodeCompiler.java:588-594 | the same once the index is parsed |
| Statements.ArraySetOf | src/BytecodeCompiler.java:582-593 | LOAD of the array first, ARRAY_SET and POP last, and the invariant |
| Statements.AssignStmt | src/BytecodeCompiler.java:528-547 | the code ends in STORE and keeps the invariant |
| Statements.ExprStmt | src/BytecodeCompiler.java:597-611 | accepted exactly when the expression parses and makes a call; the code then ends in POP |
| Statements.SingleLine | src/BytecodeCompiler.java:436-551 | every statement compileSingleLine accepts keeps the invariant |
| CodeGen.ExtendsTrans | src/BytecodeCompiler.java:108-163 | code added in two steps that each keep the invariant keeps it as a whole |
| CodeGen.AppendSound | src/BytecodeCompiler.java:436-551 | appending a sound statement grows the chunk and keeps the invariant |
| CodeGen.AppendedTrans | src/BytecodeCompiler.java:108-163 | growing twice under the invariant is growing once under it |
| CodeGen.CloseJump | src/BytecodeCompiler.java:91-104 | a forward jump patched to a target inside its block keeps the invariant for the whole block |
| CodeGen.IfClosed | src/BytecodeCompiler.java:104 | an if without else: JUMP_IF_FALSE patched to the end keeps the invariant |
| CodeGen.IfElseClosed | src/BytecodeCompiler.java:91-101 | an if with else: JUMP_IF_FALSE lands right after the JUMP and the JUMP at the end, and the invariant holds |
| CodeGen.WhileClosed | src/BytecodeCompiler.java:253-265 | a while: JUMP_IF_FALSE lands after the back JUMP, the last instruction, and the invariant holds |
| CodeGen.ExtendsWellFormed | src/BytecodeCompiler.java:6-42 | code built from an empty chunk under the invariant is a well-formed chunk |
| CodeGen.BodyWithReturn | src/BytecodeCompiler.java:420-423 | a function body with CONST_NIL and RETURN appended as needed is well formed |
| CodeGen.FunctionAdded | src/BytecodeCompiler.java:425-428 | registering a sound prototype, then CONST_FUNC with its index and a STORE, keeps the invariant |
| Compiler.Emit | src/BytecodeCompiler.java:38 | the chunk grows by exactly the statement's code and prototypes |
| Compiler.EmitSound | src/BytecodeCompiler.java:38 | the same, and the growth keeps the invariant |
| Compiler.CompileSingleLine | src/BytecodeCompiler.java:436-551 | SingleLine's error, or its code and prototypes appended |
| Compiler.EmitCondition | src/BytecodeCompiler.java:51-72 | CondHeader's error, else the condition's parse error, else the condition's code appended |
| Compiler.OpenCondition | src/BytecodeCompiler.java:51-75 | the same, followed by JUMP_IF_FALSE with target -1 |
| Compiler.CompileStatement | src/BytecodeCompiler.java:35-38 | a logical line read and compiled: its last line index, and the invariant kept |
| Compiler.ElseLine | src/BytecodeCompiler.java:79-89 | the closing line itself exactly when it reads "} else"; the next line only when it starts with "else" or "} else"; -1 when neither |
| Compiler.CompileIf | src/BytecodeCompiler.java:47-106 | CondHeader's errors; without else JUMP_IF_FALSE lands at the end; with else it lands after the JUMP, which lands at the end |
| Compiler.ElsePart | src/BytecodeCompiler.java:91-101 | the JUMP is appended, JUMP_IF_FALSE patched to the instruction after it, and the JUMP patched to the end of the else-block |
| Compiler.AppendedGrew | src/BytecodeCompiler.java:74-76 | code appended after the jump leaves the jump in place and keeps the invariant after it |
| Compiler.ThenBlock | src/BytecodeCompiler.java:108-163 | the then-block closes at a line after the header and keeps the invariant |
| Compiler.BlockLoop | src/BytecodeCompiler.java:183-222 | the block loop closes at a line in range and keeps the invariant; with no lines left it is unclosed and nothing is added |
| Compiler.ElseBlock | src/BytecodeCompiler.java:165-225 | ElseHeader's errors; the else-block closes at a later line and keeps the invariant |
| Compiler.CompileWhile | src/BytecodeCompiler.java:230-268 | CondHeader's errors; JUMP_IF_FALSE lands after the back JUMP, the last instruction, which jumps to the start of the condition |
| Compiler.CloseLoop | src/BytecodeCompiler.java:264-265 | the back JUMP appended and JUMP_IF_FALSE patched to the end, keeping the invariant |
| Compiler.WhileBlock | src/BytecodeCompiler.java:270-318 | the body closes at a later line and keeps the invariant |
| Compiler.CollectParams | src/BytecodeCompiler.java:352-363 | the parameter loop computes Params |
| Compiler.CompileFn | src/BytecodeCompiler.java:323-431 | FnSignature's and Params' errors; one prototype with those parameters and a well-formed body ending in RETURN is registered, then CONST_FUNC with its index and STORE of the name are appended |
| Compiler.FnBody | src/BytecodeCompiler.java:365-423 | the body, compiled into a fresh chunk, ends in RETURN and is well formed |
| Compiler.EndWithReturn | src/BytecodeCompiler.java:420-423 | CONST_NIL and RETURN appended exactly when the body does not already end in RETURN; the result is well formed |
| Compiler.NestedBlock | src/BytecodeCompiler.java:392-410 | a nested if, while or fn closes at a later line and keeps the invariant |
| Compiler.BodyLine | src/BytecodeCompiler.java:365-414 | blank and comment lines change nothing; a nested block's later lines count toward the depth; a statement's continuation lines do not |
| Compiler.Compile | src/BytecodeCompiler.java:6-42 | on success the chunk is well formed |
| LibCommon.RequireCount | src/TimeModule.java:300-304 | a library function's argument check fails exactly when the count differs from n, with "<module>.<fn>(...) expects <n> argument(s)" (io, str and json repeat it) |
| LibCommon.RequireString | src/StringModule.java:119-124 | accepts exactly strings, returning their text, and fails with the module's message ("Expected a string argument" in string and json, "Expected STRING argument" in io) |
| JsonText.MinifyJsonLike | src/JsonModule.java:266-297 | the char loop with the inStr and esc flags computes the minify function of its input |
| JsonText.MinifySubsequence | src/JsonModule.java:266-297 | minify only deletes chars: its output is a subsequence of its input |
| JsonText.MinFromCompact | src/JsonModule.java:286-293 | no whitespace is left outside string literals |
| JsonText.MinFromOfCompact | src/JsonModule.java:266-297 | text with no whitespace outside literals is kept as it is |
| JsonText.MinifyIdempotent | src/JsonModule.java:266-297 | minify(minify(s)) == minify(s) |
| JsonText.MinFromDropsBlank | src/JsonModule.java:292-293 | whitespace outside a literal disappears, whatever follows it |
| JsonText.Indent | src/JsonModule.java:362-365 | the indent is all spaces, level * indent of them when the 32-bit product does not overflow |
| JsonText.AppendIndent | src/JsonModule.java:362-365 | the loop appends exactly the indent |
| JsonText.PrettyChar | src/JsonModule.java:308-356 | one round of the loop appends what pretty emits for the char and moves the flags and the level as the scanner and the level function say |
| JsonText.PrettyJsonLike | src/JsonModule.java:299-360 | the loop over the minified text computes the pretty function |
| JsonText.PrettyOpensLine | src/JsonModule.java:328-334 | after `{` or `[` outside a literal comes a newline and the indent one level deeper |
| JsonText.PrettyCommaBreaksLine | src/JsonModule.java:344-349 | after `,` outside a literal comes a newline and the indent at the same level |
| JsonText.MinFromPrettyFrom | src/JsonModule.java:307-357 | minifying what pretty emits gives back the minified input, from any scanner state and level |
| JsonText.MinifyPretty | src/JsonModule.java:299-360 | minify(pretty(s, k)) == minify(s) |
| JsonText.EscapeChar | src/JsonModule.java:374-406 | a char is kept exactly when it is at least U+0020 and neither `"` nor `\`; otherwise its escape starts with `\`; no escape holds a control char |
| JsonText.Hex4 | src/JsonModule.java:398-402 | the \u escape digits are always four |
| JsonText.EscapeJsonString | src/JsonModule.java:368-409 | the char loop computes the escape function |
| JsonText.EscapeNoControl | src/JsonModule.java:368-409 | the escaped text holds no raw char below U+0020 |
| JsonText.UnescapeHexEscape | src/JsonModule.java:397-402 | the \u escape of a control char decodes back to that char under the string rules of section 7 of RFC 8259 |
| JsonText.UnescapeEscapeChar | src/JsonModule.java:374-406 | the escape of any one char decodes back to it |
| JsonText.UnescapeEscape | src/JsonModule.java:368-409 | decoding the escaped text gives back the original string |
| JsonValues.QuoteRoundTrip | src/JsonModule.java:419-421 | a quoted string starts and ends with `"` and its body decodes to the string |
| JsonValues.ToJson | src/JsonModule.java:413-447 | nil gives null, a bool true or false, a string its quoted escape, an integer its decimal digits, an array a bracketed text, and a function some text |
| JsonValues.ToJsonAll | src/JsonModule.java:436-440 | one text per element when none fails |
| JsonValues.ToJsonAllAt | src/JsonModule.java:436-440 | each element's text is that element's JSON text |
| JsonValues.ToJsonAllPrefixNone | src/JsonModule.java:436-440 | a failing prefix makes the whole list fail |
| JsonValues.RequireInt | src/JsonModule.java:248-261 | a non-number fails with "Expected a number argument"; an accepted value is integral and is its cast to long |
| JsonValues.RequireIntOfInt | src/JsonModule.java:248-261 | an int argument is accepted as itself |
| JsonValues.RequireIntOfLong | src/JsonModule.java:248-261 | a long argument is accepted exactly when it is in the int range, as itself |
| JsonValues.MinifyCall | src/JsonModule.java:21-25 | succeeds exactly on one string argument and returns its minify; a wrong count gives the arity error |
| JsonValues.PrettyCall | src/JsonModule.java:28-35 | succeeds exactly on a string and an integer, with a negative indent read as 0; a wrong count gives the arity error |
| JsonValues.EscapeCall | src/JsonModule.java:158-162 | succeeds exactly on one string and returns a text that decodes back to it |
| JsonValues.ArrCall | src/JsonModule.java:165-176 | the loop returns "[" + the element texts joined by "," + "]", failing only on a self-containing array |
| JsonValues.ValueTexts | src/JsonModule.java:186-205 | one value text per key/value pair, taken from the odd positions |
| JsonValues.Member | src/JsonModule.java:190-203 | a non-string key fails with "json.obj: key #<n> must be a string"; otherwise the member is the quoted key, ":" and the value text |
| JsonValues.ObjMembers | src/JsonModule.java:186-205 | one member per pair when none fails |
| JsonValues.ObjMembersOk | src/JsonModule.java:186-205 | the members are built exactly when every pair's member is |
| JsonValues.ObjMembersAt | src/JsonModule.java:186-205 | each built member is that pair's member |
| JsonValues.ObjFirstError | src/JsonModule.java:186-205 | the first failing pair decides the error |
| JsonValues.NextMember | src/JsonModule.java:189-203 | one pair's step: a non-string key fails with that pair's key message, otherwise the quoted key, a colon and the value's JSON text |
| JsonValues.ObjMembersStep | src/JsonModule.java:188-206 | an accepted pair after accepted pairs extends the members by its own member |
| JsonValues.ObjPairFails | src/JsonModule.java:188-206 | a failing pair after accepted pairs makes json.obj fail with that pair's fault |
| JsonValues.ObjText | src/JsonModule.java:180-183 | an odd argument count fails with the even-count message |
| JsonValues.ObjTextOk | src/JsonModule.java:179-211 | obj succeeds exactly on an even count of arguments whose keys are strings and whose values have JSON text |
| JsonValues.ObjCall | src/JsonModule.java:179-211 | returns the object text or the error the object function gives, an odd count included |
| JsonValues.ObjLoop | src/JsonModule.java:184-210 | the pair loop gives exactly the object function's result: the braced members, or the first pair's failure |
| JsonValues.ObjPair | src/JsonModule.java:188-206 | one pass of the loop: the pair's member extends the accepted members, or its failure is the object's failure |
| JsonValues.ObjAllPairs | src/JsonModule.java:209-210 | with every pair accepted, the object text is the members joined by commas in braces |
| TimeLib.Split | src/TimeModule.java:346-354 | days·86400000 + hours·3600000 + mins·60000 + secs·1000 + millis is the input, with hours < 24, mins < 60, secs < 60, millis < 1000 |
| TimeLib.RenderAll | src/TimeModule.java:356-397 | each part is rendered as its amount and suffix, in order |
| TimeLib.Parts | src/TimeModule.java:356-397 | there is always at least one part |
| TimeLib.TotalAppend | src/TimeModule.java:356-397 | the total of concatenated parts is the sum of their totals |
| TimeLib.PartsTotal | src/TimeModule.java:346-397 | the shown parts add up to the duration: omitting zero parts loses nothing |
| TimeLib.ShownTotal | src/TimeModule.java:356-383 | a part omitted for being zero contributes nothing |
| TimeLib.ZeroText | src/TimeModule.java:385-386 | the zero duration renders as "0ms" |
| TimeLib.HumanEdges | src/TimeModule.java:339-386 | human(0) is "0ms" and human(Long.MIN_VALUE) is "-inf" |
| TimeLib.MillisShown | src/TimeModule.java:385-395 | the ms part is shown exactly when millis is non-zero or the duration is under a second |
| TimeLib.HumanSign | src/TimeModule.java:336-398 | the text is non-empty and starts with "-" exactly for a negative duration |
| TimeLib.HumanNegative | src/TimeModule.java:337-358 | a negative duration other than Long.MIN_VALUE renders as "-" and the text of its magnitude |
| TimeLib.HumanDuration | src/TimeModule.java:336-398 | the StringBuilder method computes the human function |
| TimeLib.HumanText | src/TimeModule.java:356-397 | the appended parts are the sign and the shown parts joined by single spaces |
| TimeLib.FinishText | src/TimeModule.java:385-397 | the ms part is added when millis is non-zero or nothing else was shown |
| TimeLib.AppendPart | src/TimeModule.java:356-383 | one part is appended, after a space unless it is the first, and only when non-zero |
| TimeLib.RenderAllSnoc | src/TimeModule.java:356-397 | rendering a part added at the end adds its text at the end |
| TimeLib.ShownSnoc | src/TimeModule.java:356-383 | the signed text of one more shown part is the old text, a space unless it is the first part, the amount and the suffix |
| TimeLib.JoinShownSnoc | src/TimeModule.java:356-397 | the joined parts with one more part are the old join, a space unless it is the first, and the new part's text |
| TimeLib.ClampOf | src/TimeModule.java:196-213 | the result lies between the smaller and the larger bound; x inside is kept; x below or above gives that bound |
| TimeLib.Clamp | src/TimeModule.java:196-213 | the method, which swaps reversed bounds, computes the clamp function |
| TimeLib.SafeMul | src/TimeModule.java:328-334 | succeeds exactly when the product fits in 64 bits, returning it; otherwise fails with "time: overflow in multiplication" |
| TimeLib.RequireLong | src/TimeModule.java:313-326 | a non-number fails with "Expected a number argument"; an accepted value is integral and is its cast to long |
| TimeLib.RequireLongOfInteger | src/TimeModule.java:313-326 | an int or long argument is accepted as itself |
| TimeLib.RequireLongs | src/TimeModule.java:313-326 | every argument is accepted, in order, as its long |
| TimeLib.Call | src/TimeModule.java:174-269 | a wrong argument count gives the arity error; a success had every argument accepted as a long |
| TimeLib.AddUnits | src/TimeModule.java:225-251 | addSeconds, addMinutes, addHours and addDays fail exactly when n times the unit overflows, and otherwise give base + n·unit with the addition wrapping |
| TimeLib.DiffIsDifference | src/TimeModule.java:174-180 | diff(a, b) is b - a |
| TimeLib.HumanDiffRendersDifference | src/TimeModule.java:263-269 | humanDiff(a, b) is the human text of b - a |
| TimeLib.MaxMin | src/TimeModule.java:182-194 | max is at least both arguments and one of them; min is at most both and one of them |
| IoLib.RequireArray | src/IoModule.java:208-213 | accepts exactly arrays, and fails with "Expected ARRAY argument" |
| IoLib.RequireIntIndex | src/IoModule.java:215-220 | accepts exactly numbers, as their cast to int, and fails with "Expected numeric index" |
| IoLib.TypeName | src/IoModule.java:222-244 | "unknown" exactly for a function |
| IoLib.TypeNameIsLowerKind | src/IoModule.java:222-244 | every other kind gives its kind name in lower case |
| IoLib.TypeOfCall | src/IoModule.java:31-34 | succeeds exactly on one argument, giving its type name |
| IoLib.LenCall | src/IoModule.java:36-44 | succeeds exactly on one string or array, giving its length; anything else fails with the len message |
| IoLib.GetOn | src/IoModule.java:87-94 | succeeds exactly on an array and a number; an index in range gives that element and any other gives nil |
| IoLib.PushOn | src/IoModule.java:72-77 | succeeds exactly on an array; that array (every alias of it) gains the value at its end, returns itself, and no other array changes |
| IoLib.PopOn | src/IoModule.java:79-85 | succeeds exactly on an array; an empty one gives nil and no change; otherwise the last element is removed and returned, and no other array changes |
| IoLib.SetOn | src/IoModule.java:96-105 | succeeds exactly for an index in range, replacing only that slot; an index out of range fails with the bounds message |
| IoLib.PushPop | src/IoModule.java:72-85 | pop after push returns the pushed value and restores every array |
| IoLib.PushThenGet | src/IoModule.java:72-94 | get at the old length after push returns the pushed value |
| IoLib.SetThenGet | src/IoModule.java:87-105 | get after a successful set returns the value set |
| IoLib.SplitPieces | src/IoModule.java:47-56 | an empty separator gives the text alone; there is always at least one piece |
| IoLib.Strs | src/IoModule.java:47-56 | each piece becomes a string value, in order |
| IoLib.SplitOn | src/IoModule.java:47-56 | succeeds exactly on two strings and allocates a new array of the pieces |
| IoLib.JoinItems | src/IoModule.java:58-69 | the loop computes the joined printable text of the items |
| IoLib.JoinOn | src/IoModule.java:58-69 | succeeds exactly on an array and a string whose items are printable, giving their printables joined by the separator |
| IoLib.ShowAllStrs | src/IoModule.java:58-69 | the printables of string values are the strings |
| IoLib.JoinEmpty | src/IoModule.java:58-69 | an empty array joins to "" |
| IoLib.SplitThenJoin | src/IoModule.java:47-69 | join(split(text, sep), sep) gives back the text, for every separator |
| IoLib.ArrayHeap.constructor | src/IoModule.java:72-105 | the heap starts as the given arrays |
| IoLib.ArrayHeap.Push | src/IoModule.java:72-77 | changes the heap as push says, and leaves it unchanged on an error |
| IoLib.ArrayHeap.Pop | src/IoModule.java:79-85 | changes the heap as pop says, and leaves it unchanged on an error |
| IoLib.ArrayHeap.Set | src/IoModule.java:96-105 | changes the heap as set says, and leaves it unchanged on an error |
| IoLib.ArrayHeap.Split | src/IoModule.java:47-56 | the loop builds the piece array and adds it to the heap as split says |
| IoLib.ArrayHeap.Join | src/IoModule.java:58-69 | returns what join says |
| StrLib.RequireInt | src/StringModule.java:126-135 | accepts exactly integral numbers, as their cast to int; a non-number and a fraction fail with their two messages |
| StrLib.RequireIntOfInt | src/StringModule.java:126-135 | an int argument is accepted as itself |
| StrLib.LenCall | src/StringModule.java:15-19 | succeeds exactly on one string, giving its length |
| StrLib.TrimCall | src/StringModule.java:31-34 | succeeds exactly on one string; the result is String.trim of it, which is empty exactly when the string is blank |
| JavaLang.TrimEnds | src/StringModule.java:33 | what trim keeps is a slice of the string that is empty or has a char above U+0020 at each end, and every char cut off before or after it is at or below U+0020 |
| StrLib.ContainsCall | src/StringModule.java:36-41 | succeeds exactly on two strings; the result is true exactly when the second occurs in the first |
| StrLib.ContainsIffOccurs | src/StringModule.java:36-41 | indexOf finds the text exactly when it occurs somewhere |
| StrLib.ReplaceCall | src/StringModule.java:43-49 | succeeds exactly on three strings |
| StrLib.ReplaceKeeps | src/StringModule.java:43-49 | replacing a text by itself, or a text that does not occur, changes nothing |
| StrLib.SubCall | src/StringModule.java:81-90 | succeeds exactly when 0 <= a <= b <= length, giving the chars from a up to b; otherwise fails with "str.sub(s,a,b): bad range" |
| StrLib.SubAdjacent | src/StringModule.java:81-90 | sub(s, a, k) + sub(s, k, b) is sub(s, a, b) |
| StrLib.CharsOf | src/StringModule.java:52-61 | the empty separator cuts the string into its chars, and the empty string into one empty piece |
| StrLib.SplitPieces | src/StringModule.java:52-61 | there is always at least one piece |
| StrLib.JoinChars | src/StringModule.java:52-61 | the chars joined with "" give back the string |
| StrLib.JoinSplitPieces | src/StringModule.java:52-78 | the pieces joined with the separator give back the string, for every separator |
| StrLib.SplitOn | src/StringModule.java:52-61 | succeeds exactly on two strings and allocates a new array of the pieces |
| StrLib.Split | src/StringModule.java:52-61 | the loop computes split |
| StrLib.JoinOn | src/StringModule.java:64-78 | succeeds exactly on an array and a string whose items are printable; a non-array fails with "str.join(arr, sep): arr must be an array" |
| StrLib.JoinArray | src/StringModule.java:64-78 | the loop computes join |
| StrLib.SplitThenJoin | src/StringModule.java:52-78 | join(split(s, sep), sep) == s for every separator |
| StrLib.ReplaceIsSplitJoin | src/StringModule.java:43-78 | replace(s, a, b) is join(split(s, a), b) |
| Console.Tokens | src/DogConsole.java:603-605 | the token list is never empty |
| Console.Tokenize | src/DogConsole.java:582-606 | the loop with the inQuotes flag computes the token function |
| Console.ScanFacts | src/DogConsole.java:586-602 | during the scan, tokens are non-empty and quote-free, the quote flag is the parity of the quotes seen, and the tokens glued together are the kept chars |
| Console.FeedStep | src/DogConsole.java:587-602 | one char keeps those facts |
| Console.QuoteCount | src/DogConsole.java:588-591 | each quote toggles the parity |
| Console.TokensFacts | src/DogConsole.java:582-606 | tokens are non-empty and quote-free; glued together they are the line without quotes and without whitespace outside quotes; [":"] comes out when nothing is kept |
| Console.SanitizeProjectName | src/DogConsole.java:1386-1396 | null and blank names fail with their messages; any other name is accepted exactly when its trimmed form has no "/", "\", ":" or "..", and then the result is the trimmed name; otherwise it fails with "Bad project name: " and the trimmed name |
| Console.CharOccurrence | src/DogConsole.java:1393 | indexOf of a one-char string is -1 exactly when the char does not occur |
| Console.TrimTwice | src/DogConsole.java:1389 | trimming a trimmed name changes nothing |
| Console.SanitizeIdempotent | src/DogConsole.java:1386-1396 | an accepted name is accepted again as it is |
| Console.Normalize | src/DogConsole.java:177-183 | only the first token can change, and the count stays |
| Console.NormalizeRewrites | src/DogConsole.java:177-183 | exactly :h, :H, :q, :Q, :r and :R are rewritten |
| Console.NormalizeIdempotent | src/DogConsole.java:177-183 | rewriting twice changes nothing more |
| Console.Prompt | src/DogConsole.java:83-90 | the length is that of its parts |
| Console.PromptParts | src/DogConsole.java:83-90 | starts with "dog[" (and the project and "/" when one is open), ends with the folder, "*" when dirty, and "]> " |
| Console.Window | src/DogConsole.java:575-578 | the last min(200, size) entries, in order |
| Console.PrintTaskHistory | src/DogConsole.java:569-580 | the loop prints "(no tasks yet)", or the header, the window and the footer |
| Console.DropSpaces | src/DogConsole.java:783 | drops a leading run of \s chars |
| Console.TakeWord | src/DogConsole.java:783 | takes a maximal run of non-\s chars |
| Console.DelOn | src/DogConsole.java:782-801 | the buffer loses at most one line |
| Console.EditOn | src/DogConsole.java:751-812 | saving and cancelling leave the buffer as it is |
| Console.AppendThenBack | src/DogConsole.java:761-769 | :back or :undo after an appended line restores the buffer |
| Console.DelLine | src/DogConsole.java:782-801 | `:del N` removes exactly line N when 1 <= N <= size, and changes nothing for any other int |
| Console.DelText | src/DogConsole.java:782-790 | the command text ":del N" is trimmed, starts with ":del" and has N as its second word |
| Console.DelCommand | src/DogConsole.java:782-801 | a trimmed ":del" line whose second word parses removes that line when it is in range |
| Console.EditOnDel | src/DogConsole.java:756-782 | a trimmed line starting with ":del" is the delete command |
| Console.DelOnParsed | src/DogConsole.java:788-799 | a parsed line number removes that line only when in range |
| Console.WordsOfPair | src/DogConsole.java:783 | two words with one space split into those two words |
| Console.WordsOfSpaced | src/DogConsole.java:783 | a space and then a word split into that word alone |
| Console.WordsOfWord | src/DogConsole.java:783 | a single run of non-space chars splits into itself alone |
| Console.DropLeadingSpace | src/DogConsole.java:783 | the leading space before a word is skipped, and the word itself has none to skip |
| Console.CommandText | src/DogConsole.java:756-783 | a command word, a space and an argument word are already trimmed, start with the command and split into exactly those two words |
| Console.WordThenRest | src/DogConsole.java:783 | a word followed by whitespace is the first word |
| Console.TakeWordOf | src/DogConsole.java:783 | a run of non-\s chars ended by whitespace or the end is taken whole |
| Console.NumeralIsAWord | src/DogConsole.java:790 | the decimal text of an int is one word |
| Console.EditBuffer.constructor | src/DogConsole.java:748 | the buffer starts as the file's lines |
| Console.EditBuffer.Feed | src/DogConsole.java:751-812 | one round of the edit loop changes the buffer as the edit function says |
| Console.EditFile | src/DogConsole.java:749-813 | the loop ends with the session's result: the lines saved by :wq, or nothing when cancelled |
| Console.PlainLinesSaved | src/DogConsole.java:803-812 | typing plain lines then :wq saves the original lines followed by the typed ones, untrimmed |
| Cli.JoinArgs | src/Code.java:62-72 | the loop joins the arguments with single spaces; no array gives "" |
| Cli.JoinArgsTokenize | src/Code.java:62-72 | arguments that are plain words come back from the console tokenizer unchanged |
| Cli.ScanJoin | src/Code.java:62-72 | scanning joined words finishes every word but the last, which is the current token |
| Cli.ScanJoinStep | src/DogConsole.java:586-602 | one more word after joined words finishes the previous token and makes the new word current |
| Cli.FinishWord | src/DogConsole.java:592-596 | a space outside quotes moves a non-empty current token to the finished ones |
| Cli.TokensOfScan | src/DogConsole.java:601-605 | with a current token left at the end, the tokens are the finished ones followed by it |
| Cli.ScanSnoc | src/DogConsole.java:586-602 | the scan of a longer line is one more step |
| Cli.ScanWord | src/DogConsole.java:601 | plain text outside quotes only extends the current token |
| Cli.ScanPlainChar | src/DogConsole.java:601 | a char that is neither a quote nor whitespace, outside quotes, is appended to the current token |
| Cli.DefaultDogcName | src/Code.java:101-109 | no name gives "out.dogc"; otherwise the name cut at its end or before a final ".dog" in any case, followed by ".dogc" |
| Cli.Route | src/Code.java:13-54 | no arguments start the console; a compile mode needs a flag and keeps the source |
| Cli.CompileThenRun | src/Code.java:19-50 | compiling with a flag and the default output name, then running that output, takes the bytecode runner |
| Cli.RouteCompile | src/Code.java:20-26 | a flag and a source compile to the default output name |
| Cli.RouteBytecode | src/Code.java:44-51 | a name ending in ".dogc" but not ".dog" in any case runs as bytecode |
| Cli.LowerDogc | src/Code.java:44-51 | a name ending in ".dogc" lower-cases to one ending in ".dogc" and not in ".dog", and is no compile flag |
| Cli.CaretLine | src/Code.java:191-196 | max(1, col) - 1 spaces then "^", so the caret is in column col when col >= 1 |
| Cli.NewContext | src/Code.java:80-90 | a fresh registry holding exactly io, math, time, string, rand, sys and json, with nothing imported |
| Cli.StandardModulesNamed | src/Code.java:80-90 | each module is registered under the name it reports, and there are seven |

## Left out

- Floating point: the double arithmetic, comparison, casts, printing and parsing are the uninterpreted functions of `FloatOps`.
- `DogModule.call` and `getConstant` (the library modules behind CALL) are the uninterpreted functions of `Host`.
- The stream and file plumbing of the serializer (Path, buffered streams, flush) is not modelled; the formats are byte strings.
- Malformed UTF-8: the decoder gives one U+FFFD per byte that does not start a well-formed sequence, while Java replaces maximal ill-formed subparts; only well-formed input (what the writer produces) is claimed to decode exactly.
- A RuntimeException in the VM (a dangling array handle, an unparsable big literal) is reported as a "Runtime error: ..." failure; which exception Java would raise is not modelled.
- VM.DogVM.ExecLoad: an instruction with no variable name fails with a runtime error, while Java looks up null as a key of its own (and reports "Undefined variable 'null'" when none is stored under it).
- VM.DogVM.ExecStore: an instruction with no variable name fails with a runtime error, while Java stores the value under the null key.
- VM.DogVM.ExecCall: a CALL with no member name fails with a runtime error before reaching the module, while Java passes null to the module, whose answer (an "Unknown ... function: null" error in most modules) is host behaviour.
- Host stack overflow from deep recursion becomes running out of fuel.
- VM.DogVM.CallUserFunction: does not state the returned value, only that the stack is no deeper than at entry (cut back to it when higher) and that the frames are restored, because the value comes from running the body.
- VM.DogVM.ExecCallValue: does not state the value left on the stack nor that the stack below it is unchanged, only a bound on its height and the frames, for the same reason as CallUserFunction (the body shares the operand stack and may pop below its own base).
- Registry.ModuleRegistry.SortedNames: sorts with a case fold of ASCII letters only, while String.CASE_INSENSITIVE_ORDER folds every char through Character.toUpperCase and toLowerCase; the standard module names are ASCII lower-case, where the two orders agree.
- VM.DogVM.ExecuteChunk: the result is stated only for top-level code (nil) and for how the frames are kept; its step-by-step behaviour is in the handlers it dispatches to.
- Values.Printable: an array that contains itself has no printable text (the Java recursion overflows); fuel bounds the recursion.
- Registry.DogContext.ImportModule: the error message hard-codes "Available: io, math" as the source does.
- The recursive-descent methods of the Parser (`parseExpression` down to `parsePrimary`, `parsePostfix`, `parseArgsAfterOpenParen`, `parseIdentOrQualifiedOrKeyword`) are functions on values in `ParseSpec`. They give the code a parse appends as a whole. The Parser class keeps only the cursor-level methods, so the order of the individual appends is not captured.
- The code a statement leaves behind when its compilation throws is not modelled: the model appends a statement's code only once the whole statement has compiled, and a compile error discards the chunk.
- `Character.isLetter`, `isLetterOrDigit` and `isDigit` accept ASCII letters and digits only; `Character.isWhitespace` is written out for the characters Java lists.
- CONST_DOUBLE literals (a number token holding `.`, `e` or `E`) are parsed by the uninterpreted `FloatOps` parser; a token it rejects gives the compiler's "Bad number" error.
- ParseSpec.Expression: like the other grammar functions, its contract states progress and the code-generation invariant; the instruction sequence itself is the function's value, stated for operators by ParseSpec.Binary and ParseSpec.PrefixOp.
- Compiler.ThenBlock: the "Unclosed block" error is not stated in the contract, only what a successful close gives.
- Compiler.Compile: states well-formedness of a successful compile; which line's error a failed compile reports is not stated.
- File, clock, sleep, random and system functions of the library modules (`io.print`, `io.readFile` and the other file functions, `json.read`/`write`/`exists`/`size`/`readPretty`/`writePretty`, `time.now` and the other clock, zone, formatting, deadline, `unique` and `seed` functions) are I/O and are not modelled; `MathModule`, `RandomModule` and `SystemModule` are not part of this model.
- `str.upper` and `str.lower` use Java's full Unicode case mapping, which is not modelled.
- The "Unknown <module> function ... Available: ..." message lists the names in HashMap order, which is not modelled; the dispatch by name is.
- `escapeJsonString(null)` gives ""; the model's strings are never null, so that branch is not modelled.
- String lengths and indices count UTF-16 code units in Java and chars here; `split("")` into single chars is modelled per char.
- JsonText.Indent: the 32-bit product level * indent is stated only when it does not overflow.
- Array printing and JSON text of an array that contains itself overflow the Java stack; the model returns no text for it (`TooDeep`), and functions that read arrays require their array argument to be a live handle of the heap.
- The aliases of `handleCommand` lower-case ASCII letters only.
- The console's printed messages (usage errors, "Removed last line", the `:show` listing) and its file writes are not modelled; the edit functions give the buffer and how the session ends.
- Console.PromptParts: the star is stated to appear when the history is dirty; that it is absent otherwise is stated as the prompt ending in the folder and "]> ".
- The rest of the console (`start`, projects, runs, the history file) and `DogInterpreter`, `DogLog`, `Code.main`'s process plumbing (`runDogFile`, `runDogcFile`, `compileToDogc`, `System.exit`) and the root-level v0.1 snapshot are not part of this model.
- JsonText.Hex4: states only that the hex digits are four; the digits themselves are stated by the decoding lemmas.
