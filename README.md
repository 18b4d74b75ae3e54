# computer_enhance core, modelled in Dafny

This project models the sequential core of the computer_enhance performance
homework and proves properties of it:

- **JSON reader** (`homework/part2/json_parser.c`). It reads a loose subset of JSON
  from a NUL-terminated byte buffer. It keeps one cursor (`at`, plus the look-ahead
  `to` of the string parser) and runs one explicit state machine per construct.
  `JsonSpec` states what each C function computes as a function of the input and
  the cursor: the value, the cursor left on the last byte of the token, the
  warnings logged, or the fatal error. `JsonReader.Parser` runs the same `for`
  loops and `switch`es over a mutable cursor. Each of its methods is proved to
  deliver exactly what the matching `JsonSpec` function describes.
  The object loop's exit after its `for` (`Reached EOF while parsing OBJECT`)
  cannot be reached on a NUL-terminated buffer: a truncated object stops on
  the final NUL with another error first.
  `JsonProperties` proves what those functions mean:
  - the dispatch table;
  - where each token ends;
  - the string text;
  - the literals, including the `true` branch that stores `false`;
  - the reversed element order of arrays;
  - the placement of keys in the 256-slot table.

  `JsonHash` holds the djb2 `Hash` and `SimpleHash` loops.
- **Bump arena** (`homework/part2/allocator.c`): `Alloc`, `Free` and `NewArena` over
  `len`/`cap`, as the class `Arena.Allocator`. Step functions specify it.
- **Containers** (`homework/part2/profiler.cpp`): `FixedArray<T, N>` and the
  doubling `Array<T>`, as classes over Dafny arrays.
- **Nested-region profiler** (`homework/part2/profiler.cpp`): `BeginBlock`,
  `BeginScopeBlock`, `EndBlock`, `AddBytes` and the `ended` guard of `End`. They
  work over a 64-slot measurement table and a stack of open ids, with timestamps
  passed in. The accounting of exclusive and inclusive time is proved for a
  region enclosing exactly one other. From three levels of nesting on, the
  code credits the outermost region too little inclusive time (see Findings).
  `InclusiveTime` states the evidently intended hand-back and proves it at
  any depth.
- **Flat profiler** (`homework/part2/profiler_old.cpp`): a 32-entry buffer with a
  `count` cursor, loop slots, child registration and the once-only
  `EndAndPrint`.
- **Haversine input pipeline** (`homework/part2/haversine.cpp`):
  - the growable `pairvec_*` vector and the `strb_*` string builder, with their
    doubling rule;
  - the byte-level `ParseHaversineJson` state machine, specified by a step
    function and proved against it.
- **8086 decoding helpers** (`homework/part1.py`):
  - bit split and join;
  - the REG and MOD/RM tables;
  - displacement and immediate consumption from an explicit byte cursor;
  - the arithmetic opcode table;
  - the split-byte `Registers` properties.

`strtod`, the clocks and the input bytes are parameters.

In three places the code looks unintended; the model follows the code:

- Key collisions in `ParseJsonObject` overwrite the slot, with no probing. The
  warning looks at slot 0, not at the slot the key goes to
  (`JsonProperties.CollisionGoesUnnoticed`,
  `JsonProperties.CollisionReportedForSlotZero`).
- `ParseJsonBool` stores `false` for the literal `true`
  (`JsonProperties.BoolOutcome`).
- `EndBlock` hands the parent `now - m->from`, and a region's `from` has
  moved to its last child's exit. From three levels of nesting on, the
  outermost region is short of its inclusive time
  (`InclusiveTime.AsWrittenDepthThreeShortfall`). The class
  `Profiler.Profiler` keeps this; `InclusiveTime` states the correction.

## Model

| member | source | states |
|---|---|---|
| Common.CString | homework/part2/json_parser.c:110-116 | the C string at a cursor is the longest NUL-free run of input bytes starting there, ending at a NUL or at the end |
| Common.CStringUpToNul | homework/part2/json_parser.c:536-540 | cutting the buffer at any later NUL does not change the C string read at a cursor |
| JsonHash.Hash | homework/part2/json_parser.c:94-103 | the loop's result is the djb2 fold (start 5381, `hash*33 xor byte` mod 2^64, bytes sign-extended as signed `char`); the empty key hashes to 5381 |
| JsonHash.Djb2StepIsTimes33 | homework/part2/json_parser.c:100 | `(hash << 5) + hash` is `hash*33` mod 2^64, then xor with the widened byte |
| JsonHash.HashOf | homework/part2/json_parser.c:95-103 | the djb2 fold the `Hash` loop computes: the empty key hashes to 5381 and a one-byte key to `5381*33` xor its widened byte; each further byte is one more step (`HashOfSnoc`) |
| JsonHash.HashOfSnoc | homework/part2/json_parser.c:97-101 | hashing one more byte is one more djb2 step on the previous hash |
| JsonHash.SimpleHash | homework/part2/json_parser.c:84-92 | the loop's result is the wrapping u64 sum of the sign-extended bytes; the empty string gives 0 |
| JsonHash.WrappingAdd | homework/part2/json_parser.c:89 | u64 addition wraps modulo 2^64 |
| JsonHash.SumOfSnoc | homework/part2/json_parser.c:87-90 | summing one more byte adds its widened value with wrap-around |
| JsonHash.WrappingAddAssociates | homework/part2/json_parser.c:89 | wrapping addition is associative |
| JsonHash.WrappingAddCommutes | homework/part2/json_parser.c:89 | wrapping addition is commutative |
| JsonHash.SumOfAppend | homework/part2/json_parser.c:84-92 | the sum of a concatenation is the wrapping sum of the two sums |
| JsonHash.SimpleHashIgnoresOrder | homework/part2/json_parser.c:84-92 | `SimpleHash` of `a+b` equals that of `b+a`: it cannot tell anagrams apart |
| JsonHash.HashSeesOrder | homework/part2/json_parser.c:94-103 | `Hash` does tell `"ab"` from `"ba"` |
| JsonHash.KeySlot | homework/part2/json_parser.c:348 | a key's slot `Hash(key) % 256` is below the table size 256 |
| JsonHash.KeySlotOfA | homework/part2/json_parser.c:348 | the key `"a"` goes to slot 196 |
| JsonSpec.EmptyTable | homework/part2/json_parser.c:313-316 | a new object's table has 256 slots, all with a null key and a null value |
| JsonSpec.Consumed | homework/part2/json_parser.c:110-116 | the bytes `strtod` consumes lie inside the C string at the cursor and equal its reported count when that count fits |
| JsonSpec.SkipIgnorable | homework/part2/json_parser.c:105-108 | the first byte from a position that is not space, `\n`, `\t` or `\r`: all bytes before it are ignorable |
| JsonSpec.Find | homework/part2/json_parser.c:273-285 | the first occurrence of a byte from a position: no earlier byte matches |
| JsonSpec.CharCanBeIgnored | homework/part2/json_parser.c:105-108 | the ignorable bytes are space, `\n`, `\t` and `\r`, all nonzero control or space bytes, so the final NUL always stops a skip |
| JsonSpec.PreviousList | homework/part2/json_parser.c:435-446 | the list the destination's union holds: that of an array, or the one a null kept; no list for any other value |
| JsonSpec.SkipStopsInside | homework/part2/json_parser.c:536-540 | the final NUL is not ignorable, so skipping never runs off the buffer |
| JsonSpec.StringSpec | homework/part2/json_parser.c:249-301 | a successful string ends with the cursor on a closing quote strictly after the start and before the final NUL |
| JsonSpec.NumberSpec | homework/part2/json_parser.c:110-116 | the value is `strtod` of the C string at the cursor; the cursor ends one before `strtod`'s end; nothing is logged |
| JsonSpec.BoolSpec | homework/part2/json_parser.c:118-145 | a successful literal ends with the cursor on its final `e`, before the final NUL |
| JsonSpec.NullSpec | homework/part2/json_parser.c:147-157 | a successful `null` ends with the cursor 3 bytes on, on its final `l` |
| JsonSpec.ValueSpec | homework/part2/json_parser.c:407-458 | a parsed value ends with the cursor at most one before its first byte and before the final NUL; the value it delivers for a destination holding `prev` keeps `prev`'s list under a null and prepends an array to it (`JsonProperties.NullRetainsList`, `JsonProperties.ArrayReversed`) |
| JsonSpec.Dispatch | homework/part2/json_parser.c:418-457 | the same bound once the first significant byte is reached; a null sets only the tag, so the destination's list stays in it |
| JsonSpec.ObjectSpec | homework/part2/json_parser.c:312-405 | a parsed object ends on a `}` after its start and has 256 slots |
| JsonSpec.StoreKey | homework/part2/json_parser.c:346-357 | storing a key keeps the table at 256 slots and uses slot `KeySlot(key)` |
| JsonSpec.Members | homework/part2/json_parser.c:346-357 | the members from a key end on a `}` with a 256-slot table |
| JsonSpec.MemberValue | homework/part2/json_parser.c:384-397 | the same from the colon state |
| JsonSpec.AfterColon | homework/part2/json_parser.c:359-363 | the same from the value state; the value is parsed over what the key's slot already holds, so a repeated key whose earlier value was an array, or a null that kept one, extends that list |
| JsonSpec.AfterMember | homework/part2/json_parser.c:365-382 | the same from the comma-or-end state |
| JsonSpec.ArraySpec | homework/part2/json_parser.c:168-227 | a parsed array ends on a `]` after its start |
| JsonSpec.Elements | homework/part2/json_parser.c:196-204 | the elements from a value position end on a `]` |
| JsonSpec.AfterElement | homework/part2/json_parser.c:206-222 | the same from the comma-or-end state |
| JsonSpec.ObjectSpecSkips | homework/part2/json_parser.c:329-333 | before the `{`, an ignorable byte is passed over |
| JsonSpec.ObjectSpecOn | homework/part2/json_parser.c:334-344 | on a significant byte: not `{` is fatal; `{}` returns the empty table on the `}`; otherwise the keys follow |
| JsonSpec.AfterElementSkips | homework/part2/json_parser.c:206-210 | after an element, an ignorable byte is passed over |
| JsonSpec.AfterElementOn | homework/part2/json_parser.c:211-222 | after an element: `,` goes on to a value, `]` ends the array there, anything else is fatal |
| JsonSpec.AfterMemberSkips | homework/part2/json_parser.c:366-369 | after a member, an ignorable byte is passed over |
| JsonSpec.AfterMemberOn | homework/part2/json_parser.c:370-382 | after a member: `,` goes on to a key, `}` ends the object there, anything else is fatal |
| JsonSpec.MemberValueSkips | homework/part2/json_parser.c:385-388 | before the colon, an ignorable byte is passed over |
| JsonSpec.MemberValueOn | homework/part2/json_parser.c:389-397 | before the colon: `:` goes on to the value, anything else is fatal |
| JsonReader.MemEqual | homework/part2/json_parser.c:118-157 | `memcmp` against a literal succeeds exactly when the literal's bytes lie in the buffer at the cursor |
| JsonReader.StrCpy | homework/part2/json_parser.c:229-240 | copies the destination's length of bytes, stopping with a warning at a NUL of the source |
| JsonReader.KeyResumes | homework/part2/json_parser.c:346-357 | a key that fails to parse makes the object fail with its error; a parsed key is stored and parsing resumes at the colon after it |
| JsonReader.KeyStored | homework/part2/json_parser.c:346-357 | once the key is stored and its warnings and the store's are logged, the object loop's state holds at the colon: the log is the earlier warnings followed by them |
| JsonReader.ColonStep | homework/part2/json_parser.c:384-397 | one colon-state byte: ignorable keeps the state, `:` moves to the value, anything else is fatal |
| JsonReader.CommaStep | homework/part2/json_parser.c:365-382 | one comma-or-end byte: ignorable keeps the state, `,` moves to a key, `}` returns the table, anything else is fatal |
| JsonReader.Parser.constructor | homework/part2/json_parser.c:544-549 | a parser starts at 0 with no look-ahead and no warnings |
| JsonReader.Parser.Iter | homework/part2/json_parser.c:71-82 | inside the input it returns `input[at]` and advances by one; otherwise it returns NUL and leaves `at` alone |
| JsonReader.Parser.ParseNumber | homework/part2/json_parser.c:110-116 | value and final cursor are those of `NumberSpec` |
| JsonReader.Parser.ParseBool | homework/part2/json_parser.c:118-145 | value, final cursor and error are those of `BoolSpec` |
| JsonReader.Parser.ParseNull | homework/part2/json_parser.c:147-157 | final cursor and error are those of `NullSpec` |
| JsonReader.Parser.CopyText | homework/part2/json_parser.c:287-293 | the text is copied into zeroed memory of the counted length, with a warning when a NUL cut it short; `at` moves on by `to` and `to` is reset |
| JsonReader.Parser.EndString | homework/part2/json_parser.c:287-293 | the end-quote pass delivers what `StringSpec` describes |
| JsonReader.Parser.StringPass | homework/part2/json_parser.c:255-295 | one pass of the string loop keeps its invariant or delivers what `StringSpec` describes |
| JsonReader.Parser.ParseString | homework/part2/json_parser.c:249-301 | the string loop delivers exactly `StringSpec`: text, cursor on the closing quote, `to == 0`, warnings or error |
| JsonReader.Parser.ArrayBeginPass | homework/part2/json_parser.c:179-194 | the `ARRAY_BEGIN` pass: skips to the `[`, and `[]` returns the list untouched |
| JsonReader.Parser.ArrayValuePass | homework/part2/json_parser.c:196-204 | the `ARRAY_VALUE` pass parses one value and prepends it, as `ArraySpec` continues |
| JsonReader.Parser.ArrayCommaPass | homework/part2/json_parser.c:206-222 | the `ARRAY_COMMA_OR_END` pass, as `AfterElement` describes |
| JsonReader.Parser.ArrayPass | homework/part2/json_parser.c:176-224 | one pass of the array loop keeps its invariant or delivers the loop's result |
| JsonReader.Parser.ParseArray | homework/part2/json_parser.c:168-227 | the array loop delivers exactly `ArraySpec`, including the EOF error |
| JsonReader.Parser.ObjectBeginPass | homework/part2/json_parser.c:329-344 | the `PARSING_BEGIN` pass, as `ObjectSpec` describes |
| JsonReader.Parser.StoreCurrentKey | homework/part2/json_parser.c:348-354 | the key goes to the slot and the table `StoreKey` gives, with its warning |
| JsonReader.Parser.ObjectKeyPass | homework/part2/json_parser.c:346-357 | the `PARSING_KEY` pass, as `Members` describes |
| JsonReader.Parser.StoreParsedKey | homework/part2/json_parser.c:346-357 | a parsed key, or its error, continues the object as `Members` describes |
| JsonReader.Parser.ObjectColonPass | homework/part2/json_parser.c:384-397 | the `PARSING_COLON` pass, as `MemberValue` describes |
| JsonReader.Parser.ObjectValuePass | homework/part2/json_parser.c:359-363 | the `PARSING_VALUE` pass parses into the key's slot over its previous value, as `AfterColon` describes |
| JsonReader.Parser.ObjectCommaPass | homework/part2/json_parser.c:365-382 | the `PARSING_COMMA_OR_END` pass, as `AfterMember` describes |
| JsonReader.Parser.ObjectPass | homework/part2/json_parser.c:323-401 | one pass of the object loop keeps its invariant or delivers the loop's result |
| JsonReader.Parser.ParseObject | homework/part2/json_parser.c:312-405 | the object loop delivers exactly `ObjectSpec`: its result, cursor and warnings, or its fatal error; `ObjectSpec` has no EOF outcome, because under `WellTerminated` the exit after the loop (line 404) is unreachable |
| JsonReader.Parser.DispatchValue | homework/part2/json_parser.c:418-457 | the first significant byte picks the parser and tag, as `Dispatch` describes |
| JsonReader.Parser.ParseValue | homework/part2/json_parser.c:407-458 | skipping and dispatch deliver exactly `ValueSpec`, including the list a null keeps from the destination |
| JsonReader.LoadJson | homework/part2/json_parser.c:544-549 | the parse from offset 0 yields `LoadJsonSpec` |
| JsonProperties.SkipFindsFirst | homework/part2/json_parser.c:105-108 | skipping from a position stops at the first byte that cannot be ignored |
| JsonProperties.FindFindsFirst | homework/part2/json_parser.c:273-285 | the text scan stops at the first quote |
| JsonProperties.StringOutcome | homework/part2/json_parser.c:258-300 | a string parses iff its first significant byte is `"` and another `"` follows; otherwise "Invalid char" or "Reached EOF" |
| JsonProperties.CopiedIntoZeros | homework/part2/json_parser.c:229-293 | copying into zeroed memory gives the text up to its first NUL padded with zeros, warns iff the text has a NUL, and is the text itself without one |
| JsonProperties.StringText | homework/part2/json_parser.c:249-301 | the value is the bytes between the quotes (exactly them when NUL-free), the cursor ends on the closing quote, a NUL gives one warning |
| JsonProperties.BoolOutcome | homework/part2/json_parser.c:118-145 | a literal parses iff `false` or `true` is there; both yield `false`; `true` ends 3 on and `false` 4 on; other bytes or a short `f` give the EOF error |
| JsonProperties.ValueTag | homework/part2/json_parser.c:407-458 | the tag of a parsed value corresponds one-to-one with its first significant byte; any other byte is fatal; a number always parses |
| JsonProperties.NullRetainsList | homework/part2/json_parser.c:435-446 | a null leaves the destination's list in place: the parsed null holds `PreviousList(prev)`, and an array parsed over it later is prepended to that same list |
| JsonProperties.ValueEndsOnToken | homework/part2/json_parser.c:110-405 | each value ends on its last byte: `}`, `]`, closing quote, +4 for `false`, +3 for `true` and `null`, `strtod` end − 1 |
| JsonProperties.Reverse | homework/part2/json_parser.c:200-201 | element i of the reversal is element n−1−i of the list |
| JsonProperties.ElementsReversed | homework/part2/json_parser.c:196-222 | the elements prepended onto a list are the reversal of the in-order elements followed by that list |
| JsonProperties.AfterElementReversed | homework/part2/json_parser.c:206-222 | the same from the comma-or-end state |
| JsonProperties.ArrayReversed | homework/part2/json_parser.c:168-227 | `[]` leaves the previous list untouched; otherwise the array is its elements in reverse input order, followed by the previous list |
| JsonProperties.StoreKeyAtHome | homework/part2/json_parser.c:348-354 | a stored key lands in its own slot, keeps that slot's value, changes no other slot, and keeps every key in its home slot |
| JsonProperties.MembersAtHome | homework/part2/json_parser.c:346-382 | every key of a parsed object sits at `Hash(key) % 256`, from the key state |
| JsonProperties.MemberValueAtHome | homework/part2/json_parser.c:384-397 | the same from the colon state |
| JsonProperties.AfterColonAtHome | homework/part2/json_parser.c:359-363 | the same from the value state |
| JsonProperties.AfterMemberAtHome | homework/part2/json_parser.c:365-382 | the same from the comma-or-end state |
| JsonProperties.ObjectAtHome | homework/part2/json_parser.c:312-405 | every key of a parsed object sits in the slot its hash selects |
| JsonProperties.KeySlotOfBc | homework/part2/json_parser.c:348 | `"bc"` also hashes to slot 196 |
| JsonProperties.KeySlotOfHm | homework/part2/json_parser.c:348 | `"hm"` hashes to slot 0 |
| JsonProperties.CollisionGoesUnnoticed | homework/part2/json_parser.c:348-354 | `"a"` then `"bc"` share a slot, no warning is logged, and `"a"` is gone from the table |
| JsonProperties.CollisionReportedForSlotZero | homework/part2/json_parser.c:349-352 | after `"hm"` fills slot 0, storing `"a"` warns of a collision although its own slot is empty |
| JsonProperties.TwelveSlotsOverrun | homework/part2/json_parser.c:314-354 | the key `"a"` is stored at slot 196, outside the 12 entries allocated |
| Arena.AllocBumps | homework/part2/allocator.c:29-38 | an arena allocation succeeds iff `len + count <= cap`; it returns the old `len`, grows `len` by `count` and keeps `len <= cap` |
| Arena.AllocStep | homework/part2/allocator.c:20-45 | the intended `Alloc`, without wrap-around: no allocator gives null and no change; a success keeps kind and `cap`, never lowers `len` and keeps `len <= cap` |
| Arena.AllocStepAsWritten | homework/part2/allocator.c:20-45 | `Alloc` as written, with the u64 sum: a success still ends with `len <= cap`, but `len` moves backwards exactly when `len + count` wraps past 2^64 |
| Arena.FreeStep | homework/part2/allocator.c:47-61 | `Free` keeps kind and `cap`, never raises `len`, and leaves the arena within capacity |
| Arena.NewArena | homework/part2/allocator.c:63-71 | a new arena is empty and within capacity, and an allocation of `count` bytes from it succeeds exactly when `count <= size` |
| Arena.NoneAllocatorIsInert | homework/part2/allocator.c:20-61 | with no allocator, `Alloc` returns null and `Alloc`/`Free` leave the state unchanged |
| Arena.FreeResets | homework/part2/allocator.c:54-56 | `Free` on an arena sets `len` to 0 and keeps the rest |
| Arena.AllocAll | homework/part2/allocator.c:20-45 | a successful run of allocations returns one offset per request |
| Arena.AllocAllContiguous | homework/part2/allocator.c:36-37 | successive allocations return offsets `len + sum of earlier counts`, ending with `len` grown by the total, still within `cap` |
| Arena.AllocAllDisjoint | homework/part2/allocator.c:36-37 | the ranges of two allocations in a run do not overlap: the earlier one ends before the later starts |
| Arena.SumAppend | homework/part2/allocator.c:36-37 | the total of the counts grows by the last count |
| Arena.SumPrefixGrows | homework/part2/allocator.c:36-37 | totals of longer prefixes are no smaller |
| Arena.AsWrittenGuardWraps | homework/part2/allocator.c:30-37 | with `len = 1`, `cap = 16`, `count = 2^64-1` the guard as written passes and `len` wraps to 0, where the intended guard refuses |
| Arena.AsWrittenAgreesWithoutWrap | homework/part2/allocator.c:30-37 | without wrap-around the guard as written and the intended one agree |
| Arena.Allocator.Zeroed | homework/part2/allocator.c:13-18 | a zero-initialised `Allocator` has no allocator kind, `len` 0 and `cap` 0 |
| Arena.Allocator.FromNewArena | homework/part2/allocator.c:63-71 | `NewArena(size)` gives an arena with `len == 0` and `cap == size` |
| Arena.Allocator.Alloc | homework/part2/allocator.c:20-45 | the allocation and new state are those of `AllocStep`, the intended guard, which does not wrap (the code as written is `AllocStepAsWritten`, see Findings); a successful call keeps `len <= cap` |
| Arena.Allocator.Free | homework/part2/allocator.c:47-61 | an arena's `len` becomes 0; kind and `cap` are kept; no allocator, no change |
| Containers.FixedArray.constructor | homework/part2/profiler.cpp:40-44 | an empty array of capacity N |
| Containers.FixedArray.Push | homework/part2/profiler.cpp:46-53 | below capacity the element goes at index `len` and `len` grows by one; when full nothing changes |
| Containers.FixedArray.Pop | homework/part2/profiler.cpp:55-62 | aborts when empty; otherwise removes and returns the last element (LIFO) |
| Containers.FixedArray.Last | homework/part2/profiler.cpp:64-70 | aborts when empty; otherwise returns `data[len-1]` without change |
| Containers.FixedArray.At | homework/part2/profiler.cpp:72-80 | aborts iff `id >= cap` (not `len`); otherwise returns `data[id]` |
| Containers.Array.constructor | homework/part2/profiler.cpp:6-10 | an empty array with the given capacity |
| Containers.Array.Push | homework/part2/profiler.cpp:11-21 | appends the element; when full the capacity doubles into new memory first |
| Containers.Array.Pop | homework/part2/profiler.cpp:23-30 | aborts when empty; otherwise removes and returns the last element |
| Containers.Array.At | homework/part2/profiler.cpp:32-37 | aborts iff `id >= cap`; otherwise returns `data[id]` |
| Profiler.BeginBlockStep | homework/part2/profiler.cpp:187-215 | entering keeps the table at 64 slots, every stacked id valid and every checkpoint at or before now |
| Profiler.EndBlockStep | homework/part2/profiler.cpp:228-243 | the same for a successful exit |
| Profiler.EndStep | homework/part2/profiler.cpp:245-255 | `End` always leaves `ended` set with slots and stack unchanged, and reports exactly when it had not ended before |
| Profiler.AddBytesStep | homework/part2/profiler.cpp:217-220 | adding bytes keeps the stack and every checkpoint |
| Profiler.StepsKeepExclusiveWithinInclusive | homework/part2/profiler.cpp:187-243 | no operation makes a slot's exclusive time exceed its inclusive time |
| Profiler.MisuseCases | homework/part2/profiler.cpp:187-243 | `BeginBlock` with `id >= 64` changes nothing; `EndBlock` and `AddBytes` abort iff no region is open |
| Profiler.BeginBlockEffect | homework/part2/profiler.cpp:197-212 | pushes `id`; the slot's checkpoint becomes now, its bytes and calls grow; an enclosing region is charged `now - from` on both totals with its checkpoint kept; nothing else changes |
| Profiler.EndBlockEffect | homework/part2/profiler.cpp:228-243 | pops the top; it is charged on both totals; the parent's checkpoint becomes now and only its inclusive total grows by the child's last stretch; nothing else changes |
| Profiler.EndOutermostEffect | homework/part2/profiler.cpp:228-243 | closing the last open region charges it and empties the stack |
| Profiler.CheckpointsBeforeLater | homework/part2/profiler.cpp:197-202 | checkpoints before a time stay before any later time |
| Profiler.NestedRegionAccounting | homework/part2/profiler.cpp:197-242 | A enclosing exactly B: A's inclusive time is A's exclusive plus B's inclusive, and equals A's duration |
| Profiler.HandBackSince | homework/part2/profiler.cpp:236-242 | after a close only the new top of the stack changes: its checkpoint becomes now and its inclusive total grows by `now - since` |
| InclusiveTime.IntendedBeginBlockStep | homework/part2/profiler.cpp:187-215 | entering is `BeginBlockStep`, and the entry times stay one per open region, all at or before now, the earlier ones kept |
| InclusiveTime.IntendedEndBlockStep | homework/part2/profiler.cpp:228-243 | fails exactly when `EndBlockStep` does; otherwise it agrees with `EndBlockStep` on the stack, every checkpoint, every exclusive total and every slot but the new top's, and drops the closed region's entry time |
| InclusiveTime.NothingOpenAccounts | homework/part2/profiler.cpp:175-185 | with nothing open the bookkeeping holds |
| InclusiveTime.AccountsEnteredBefore | homework/part2/profiler.cpp:197-212 | under the bookkeeping every entry time is at or before the clock |
| InclusiveTime.IntendedBeginKeepsAccounts | homework/part2/profiler.cpp:187-215 | entering a region not already open keeps the bookkeeping: each region below the top credited up to its child's entry, the top up to its checkpoint |
| InclusiveTime.IntendedEndChargesWholeVisit | homework/part2/profiler.cpp:228-243 | at any depth, leaving a region credits it its inclusive total at entry plus exactly `now` minus its entry time, and keeps the bookkeeping for the regions still open |
| InclusiveTime.ThreeOpen | homework/part2/profiler.cpp:187-215 | after entering A, B and C in turn, A and B are charged up to their child's entry and keep their checkpoints |
| InclusiveTime.AsWrittenDepthThreeShortfall | homework/part2/profiler.cpp:228-243 | as written, A enclosing B enclosing C: B and C get their whole visits, but A gets `(t1 - t0) + (t5 - t3)`, short of `t5 - t0` by `t3 - t1` |
| InclusiveTime.AsWrittenDepthThreeExample | homework/part2/profiler.cpp:228-243 | regions open at 0, 1, 2 and close at 3, 4, 5: the outer region, open for 5 ticks, is credited 3 |
| Profiler.Repeat | homework/part2/profiler.cpp:187-243 | repeated enter/exit keeps the state well-formed |
| Profiler.RepeatCountsCalls | homework/part2/profiler.cpp:187-243 | n enter/exit pairs of one region add n to its call count and leave the stack as it was |
| Profiler.NegativeScopeIdClosesParent | homework/part2/profiler.cpp:187-226 | a negative scope id becomes an id ≥ 2^63, is ignored on entry, so the matching exit closes the enclosing region |
| Profiler.EndIsIdempotent | homework/part2/profiler.cpp:245-255 | the first `End` sets `ended` and reports; the second returns at once |
| Profiler.Profiler.New | homework/part2/profiler.cpp:175-185 | a new profiler has 64 empty slots, an empty stack and `ended` false |
| Profiler.Profiler.ChargeOpenRegion | homework/part2/profiler.cpp:197-202 | the top slot is charged up to now |
| Profiler.Profiler.BeginBlock | homework/part2/profiler.cpp:187-215 | the new state is `BeginBlockStep`'s |
| Profiler.Profiler.OpenRegion | homework/part2/profiler.cpp:204-212 | slot and stack become those of `BeginBlockStep` |
| Profiler.Profiler.AddBytes | homework/part2/profiler.cpp:217-220 | aborts or updates exactly as `AddBytesStep` |
| Profiler.Profiler.BeginScopeBlock | homework/part2/profiler.cpp:222-226 | `BeginBlock` with the i32 id converted to u64: its state, its clock, and its name, start and print file unchanged |
| Profiler.Profiler.HandBackToParent | homework/part2/profiler.cpp:236-242 | the parent's checkpoint and inclusive total are updated as `HandBack` describes |
| Profiler.Profiler.CloseRegion | homework/part2/profiler.cpp:230-242 | the slots become those of `EndBlockStep` |
| Profiler.Profiler.EndBlock | homework/part2/profiler.cpp:228-243 | aborts or updates exactly as `EndBlockStep` |
| Profiler.Profiler.End | homework/part2/profiler.cpp:245-255 | the flag and report are those of `EndStep`; name, start, clock and print file are unchanged |
| FlatProfiler.AddKeepsCursorInRange | homework/part2/profiler_old.cpp:45-55 | `Add` writes slot `count` and advances only when `count + 1 < 32`, so `count` stays ≤ 31 |
| FlatProfiler.AddStep | homework/part2/profiler_old.cpp:45-55 | `Add` keeps the 32 entries and `ended`, writes no slot but `count`, and advances `count` by at most one, stamping that slot with one more iteration when it does |
| FlatProfiler.AddLoopStep | homework/part2/profiler_old.cpp:57-67 | `AddLoop` keeps `count`, `ended` and every slot but `count` |
| FlatProfiler.EndLoopStep | homework/part2/profiler_old.cpp:69-72 | `EndLoop` advances `count` by one, unchecked, and changes nothing else |
| FlatProfiler.EndAndPrintStep | homework/part2/profiler_old.cpp:83-95 | `EndAndPrint` always leaves `ended` set with buffer and `count` kept; it returns at once iff already ended, and reports iff not ended and `count > 0` |
| FlatProfiler.AddLoops | homework/part2/profiler_old.cpp:57-67 | repeated `AddLoop`s keep the 32-entry buffer |
| FlatProfiler.AddLoopsReuseOneSlot | homework/part2/profiler_old.cpp:57-67 | n `AddLoop`s rewrite slot `count` only, with the last stamp and n more iterations, and never advance `count` |
| FlatProfiler.EndAndPrintOnce | homework/part2/profiler_old.cpp:83-95 | the first call sets `ended` and reports iff `count > 0`; later calls return at once |
| FlatProfiler.Profiler.New | homework/part2/profiler_old.cpp:37-43 | a new profiler has an empty buffer, `count` 0 and no children |
| FlatProfiler.Profiler.Add | homework/part2/profiler_old.cpp:45-55 | the new state is `AddStep`'s |
| FlatProfiler.Profiler.AddLoop | homework/part2/profiler_old.cpp:57-67 | the new state is `AddLoopStep`'s |
| FlatProfiler.Profiler.EndLoop | homework/part2/profiler_old.cpp:69-72 | `count` grows by one, unchecked |
| FlatProfiler.Profiler.AddChild | homework/part2/profiler_old.cpp:74-81 | records `count` in `childrenSlot`, sets the child's layer, adds a measurement named after it, appends it to `children` (dropped beyond 16); both names and starts are kept, and a child other than the parent keeps its `count` and `ended`, the parent its layer |
| FlatProfiler.Profiler.EndAndPrint | homework/part2/profiler_old.cpp:83-133 | the flag and outcome are those of `EndAndPrintStep`; a report ends exactly the first `ScannedChildren` children and leaves every other child's `ended` as it was |
| FlatProfiler.ScanFrom | homework/part2/profiler_old.cpp:104-133 | the walk over the rows only ever moves forward through the children and never past the last |
| FlatProfiler.ScanFromStopsAtLongestAscending | homework/part2/profiler_old.cpp:104-133 | from any point, the walk stops at the longest prefix of children whose slots are below `count` and strictly increasing |
| FlatProfiler.ScannedChildrenExactly | homework/part2/profiler_old.cpp:104-133 | a report ends child `k` iff the slots of children `0..k` are below `count` and strictly increasing; two children registered at the same slot stop it, so the second and all later ones are never ended |
| Haversine.DoubledIsLeastSufficient | homework/part2/haversine.cpp:107-109 | doubling from the start reaches `want`, never shrinks, and overshoots by less than a factor of two |
| Haversine.ReservedSuffices | homework/part2/haversine.cpp:103-118 | the reserved capacity covers `want` and the old capacity, and is unchanged when `want <= cap` |
| Haversine.PairVec.Empty | homework/part2/haversine.cpp:243 | a zeroed vector is empty |
| Haversine.PairVec.Reserve | homework/part2/haversine.cpp:103-118 | `cap` follows the doubling rule from `cap` or 16; `len` and the elements are kept |
| Haversine.PairVec.Push | homework/part2/haversine.cpp:119-125 | appends `p` after the old elements, growing when `len == cap` |
| Haversine.StrB.Empty | homework/part2/haversine.cpp:248 | a zeroed builder is empty |
| Haversine.StrB.Reset | homework/part2/haversine.cpp:135 | `len` becomes 0; `cap` and the buffer are kept |
| Haversine.StrB.Reserve | homework/part2/haversine.cpp:136-152 | `cap` follows the doubling rule from `cap` or 32; contents are kept |
| Haversine.StrB.PushChar | homework/part2/haversine.cpp:153-158 | appends `c` and leaves `len < cap`, room for a terminator |
| Haversine.StrB.CStr | homework/part2/haversine.cpp:159-165 | writes NUL at `buf[len]` without changing the contents; the C string is the contents up to their first NUL |
| Haversine.DoneIsFinal | homework/part2/haversine.cpp:240-370 | once the loop has stopped, later bytes change nothing |
| Haversine.Step | homework/part2/haversine.cpp:256-364 | one byte of the loop only ever appends to the pairs, at most one, and never reports success without stopping |
| Haversine.Scanned | homework/part2/haversine.cpp:253-364 | after n bytes at most n pairs were pushed, and success implies the loop stopped |
| Haversine.Parse | homework/part2/haversine.cpp:240-370 | the loop over all bytes pushes at most one pair per byte, and success implies it stopped |
| Haversine.HeaderInvariantHolds | homework/part2/haversine.cpp:263-286 | the scan never gets past the header states unless the significant bytes began with `[`, `{`, `"` |
| Haversine.SuccessNeedsHeader | homework/part2/haversine.cpp:263-361 | a successful parse began with `[`, `{`, `"` |
| Haversine.ValueTextHasNoWhitespace | homework/part2/haversine.cpp:258-339 | value text never contains space, tab, CR or LF |
| Haversine.KeyKeepsWhitespace | homework/part2/haversine.cpp:258-298 | inside a key every byte but `"`, whitespace included, is appended |
| Haversine.ValueEndAssigns | homework/part2/haversine.cpp:314-331 | on `,` or `}` after a value, its conversion goes into the field the key names; other keys are ignored; both builders reset |
| Haversine.PushOnlyAfterCloseBrace | homework/part2/haversine.cpp:345-361 | exactly one pair is pushed per significant byte after `}`, and it is `curPair` as it stands, which is kept, not cleared; success iff that byte is `]`; the scan goes on only after `,` |
| Haversine.Feed | homework/part2/haversine.cpp:256-367 | one loop iteration on builders and vector does what `Step` says |
| Haversine.ParseHaversineJson | homework/part2/haversine.cpp:240-370 | the pairs and success flag are those of `Parse`; with an expected count the vector holds room for one more |
| Decoder.Pow2 | homework/part1.py:36-42 | powers of two are positive |
| Decoder.BitsOf | homework/part1.py:36-42 | the bit list of n bits has n entries |
| Decoder.Bits | homework/part1.py:36-42 | `bits(c)` has 8 entries |
| Decoder.JoinSplit | homework/part1.py:264-268 | joining the bits of c < 2^n gives c back |
| Decoder.BitsToByte | homework/part1.py:264-268 | `bits_to_byte` of n bits is below 2^n |
| Decoder.SplitJoin | homework/part1.py:264-268 | splitting a joined bit list gives the list back |
| Decoder.BitsRoundTrip | homework/part1.py:36-42 | `bits_to_byte(*bits(c)) == c` for every byte |
| Decoder.BitsToByteRoundTrip | homework/part1.py:264-268 | `bits(bits_to_byte(b)) == b` for every 8-bit list |
| Decoder.DecodeReg | homework/part1.py:64-87 | a register name has two letters iff the code is 0..7; other codes give `""` |
| Decoder.DecodeRegInjective | homework/part1.py:64-87 | different codes give different names for a fixed `w` |
| Decoder.ByteRegistersAreHalves | homework/part1.py:64-87 | codes 0..3 with `w = 0` are the `l` halves and 4..7 the `h` halves of the `x` registers named with `w = 1` |
| Decoder.DecodeArithmeticOp | homework/part1.py:150-159 | 0b010 is adc, 0b101 sub, 0b111 cmp and every other code add |
| Decoder.Decimal | homework/part1.py:113-120 | the decimal text of a number is not empty |
| Decoder.DecimalRoundTrip | homework/part1.py:113-120 | the decimal text reads back as the number |
| Decoder.DecimalInjective | homework/part1.py:113-120 | different numbers have different decimal texts |
| Decoder.LittleEndian | homework/part1.py:116-118 | `hi << 8 \| lo` of n bytes is below 2^(8n) |
| Decoder.MemoryOperandDeterminesDisplacement | homework/part1.py:97-123 | the operand text determines the displacement |
| Decoder.Signed8 | homework/part1.py:126-135 | `int8(uint8(b))` lies in -128..127 and is b modulo 256 |
| Decoder.Signed16 | homework/part1.py:126-135 | `int16(uint16(v))` lies in -32768..32767 and is v modulo 65536 |
| Decoder.Imm16RoundTrip | homework/part1.py:126-135 | the two little-endian bytes of a 16-bit value decode back to it |
| Decoder.Imm8RoundTrip | homework/part1.py:126-135 | the byte of an 8-bit value decodes back to it |
| Decoder.AddDataWidths | homework/part1.py:138-147 | a second byte is read only for `w == 1 and s == 0`; otherwise the value is a signed byte |
| Decoder.ByteCursor.constructor | homework/part1.py:49 | the cursor starts at 0 |
| Decoder.ByteCursor.GetByte | homework/part1.py:52-61 | returns `binary[current]` and advances by one; at the end it stops |
| Decoder.ByteCursor.DecodeReg02 | homework/part1.py:90-123 | `mod == 3` is `decode_reg` with no bytes read; otherwise the rm base with the displacement of 0, 1 or 2 bytes, omitted when zero |
| Decoder.ByteCursor.DecodeImmData | homework/part1.py:126-135 | reads 1 byte for `w == 0`, returned as signed 8-bit; otherwise reads 2 bytes, returned as little-endian signed 16-bit when `w == 1` and as the signed first byte for any other `w` |
| Decoder.ByteCursor.DecodeAddData | homework/part1.py:138-147 | reads the bytes `AddDataSize` gives and decodes them with `AddDataValue` |
| Decoder.Registers.constructor | homework/part1.py:162-205 | every register and flag starts at zero |
| Decoder.Registers.Get | homework/part1.py:207-257 | a pair reads as a 16-bit value, from its `h` and `l` fields |
| Decoder.Registers.Set | homework/part1.py:207-257 | setting a pair stores its bytes in that pair's fields only, and the pair then reads back as the value modulo 65536, the value itself when it fits 16 bits |
| Decoder.Registers.Delete | homework/part1.py:207-257 | deleting zeroes that pair only |
| Decoder.SetThenGet | homework/part1.py:207-257 | reading a pair after setting it gives the value modulo 65536, the value itself when it fits 16 bits |

## Left out

- Floating point: `strtod` is a parameter function from the digit bytes to a value and a consumed length. The haversine formula, `JsonPrint`'s formatting and the profilers' seconds, percentages and throughput are not modelled.
- Clocks: `ReadOSTimer`, `__rdtsc` and the timer frequency are replaced by timestamps passed in. The profiler's methods require them not to decrease.
- File I/O: `LoadFile` and `ReadEntireFile` are not modelled. Their one relevant fact, that the buffer ends with a NUL counted in its length, is the precondition `WellTerminated`.
- Printing: the text of `JsonPrint` and of the summaries of `Profiler::End` and `EndAndPrint` is not modelled. Their guards, flags and the children `EndAndPrint` ends are.
- FlatProfiler.Profiler.EndAndPrint: ends the children its walk reaches by setting their `ended`, which is what their own call does on every path. The further cascade into those children's children is not followed.
- JsonSpec.Dispatch: a bool, number, string or object parsed into a destination leaves the union's bytes there; an array parsed over it afterwards would read those bytes as a list pointer, which is undefined behaviour. `PreviousList` treats such a destination as holding no list. Only an earlier array, or a null that kept one, is carried over.
- Memory: `VirtualAlloc` in `NewArena`, and the `realloc` failure exits in the haversine buffers, are not modelled. Allocation always succeeds.
- The JSON reader does not draw its strings, tables and list cells from the arena. Each is fresh zeroed memory, which is what the arena hands out.
- `JsonReader.Parser.ParseNull`: the unchecked 4-byte `memcmp` is modelled as a comparison that the final NUL stops. It is not modelled as a read past the buffer.
- InclusiveTime.IntendedEndChargesWholeVisit: proved for open regions with distinct ids. A region re-entered while it is already open shares one slot with its outer visit, so no per-slot total can count each visit once.
- The class `Profiler.Profiler` keeps the hand-back as written. The correction needs each open region's entry time, which the source does not store, so it is stated on the step functions of `InclusiveTime` only.
- Profiler.Measurement: the 64-bit counters (`iterations`, times, bytes) are unbounded naturals. Their u64 wrap-around is not modelled.
- Containers.Array.Push: requires a capacity above 0 and a doubled capacity that fits in u64. From a zero capacity the source doubles to 0 and writes past the buffer.
- Haversine.ParseHaversineJson: loops over the input bytes. The source loops to `bytes.cap`, which is the same when the buffer is full, as `ReadEntireFile` leaves it. The per-byte `Profiler::AddBytes(1)` calls are not modelled.
- The `homework/part1.py` module-level driver (argument handling, file output, the `exec`-based register simulation) is not modelled. `finished()` at the end of the input is the `None` result of the cursor methods.
- `homework/part2/haversine.c`, `generator.c`, `log.c` and the Python and C++ drivers are not part of this model.

## Findings

| source | as written | input that shows it | evidently intended | confidence | as-written member | corrected member |
|---|---|---|---|---|---|---|
| homework/part2/allocator.c:30-37 | the guard `len + count > cap` is computed in u64 and can wrap | `len = 1`, `cap = 16`, `count = 2^64 - 1`: the sum wraps to 0, the guard passes, and `len` becomes 0 | refuse any request that does not fit: `len + count <= cap` without wrap-around | not executed | Arena.AsWrittenGuardWraps | Arena.AllocBumps |
| homework/part2/json_parser.c:314-354 | the object table allocates 12 entries but indexes them with `Hash(key) % 256` | the key `"a"` is written to entry 196 of a 12-entry allocation | a table of 256 entries, matching `size = 256` | not executed | JsonProperties.TwelveSlotsOverrun | JsonProperties.StoreKeyAtHome |
| homework/part2/profiler.cpp:228-243 | `prev->timeInc += now - m->from`, where `m->from` was moved to `now` when `m`'s own last child closed | regions 1, 2, 3 open at 0, 1, 2 and close at 3, 4, 5: region 1 is open for 5 ticks and its inclusive time grows by 3 | the parent's inclusive time grows by the closed region's whole visit, `now` minus its entry time | not executed | InclusiveTime.AsWrittenDepthThreeShortfall | InclusiveTime.IntendedEndChargesWholeVisit |
