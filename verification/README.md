# CHIP-8 interpreter skeleton, modelled in Dafny

`chip8.py` is the start of a CHIP-8 interpreter. Its `Chip8` class holds the machine state: a
4096-byte memory with the hexadecimal font at address 0, the program counter at 0x200,
the index register, the stack pointer at 0x52, the delay and sound timers, sixteen general
registers `v0`..`vf` and the current opcode. It has three operations with behaviour:

- the constructor builds that state;
- `decode_execute` dispatches on the opcode string through a first-match `if/elif` chain,
  then advances the program counter by 2. Every branch is `pass` except the `00E0` one,
  which calls the `clear_display` stub (itself `pass`);
- `fetch_instr` either records a debug opcode or reads two bytes at the program counter.

The memory layout and the font follow sections 2.1 (Memory) and 2.4 (Display) of Cowgod's
Chip-8 Technical Reference.

The model is functional. A `Machine` is an immutable record. `Init` returns a `Machine`,
because the constructor cannot raise (see Left out). `DecodeExecute` and `Fetch` return an
`Outcome`:

- `Returned(state)` when the call completes;
- `Raised(error, state)` when it raises, with the state as it stands when the exception
  escapes.

Python's dynamic typing matters here. `current_opcode` holds the string "0000" after
construction. A memory fetch that reads both bytes stores their integer sum there. A debug
fetch leaves it as it was, and so does a fetch that raises IndexError. So it is modelled as
`Value = Str | Int`. Subscripting an integer raises `TypeError`. Subscripting an empty string raises `IndexError`. Sequence indexing
follows Python, so negative indices count from the end (`Python.Index`).

Modules:

- `wrappers.dfy`: the `Option` and `Result` wrappers.
- `python.dfy`: exceptions, bytes, indexing and `hex`.
- `font.dfy`: the font table and the glyph pictures it is checked against.
- `dispatch.dfy`: the guard chain and its first-match selection.
- `chip8.dfy`: the state and the three operations.
- `fetch_fix.dfy`: the corrected fetch (see Findings).

The comments beside the branches describe a full instruction set: a stack, a framebuffer,
timers and keypad. The code implements none of it. Every branch is `pass` except the `00E0`
one, which calls the `clear_display` stub (itself `pass`, chip8.py:99-100). The stack pointer
starts at 0x52 with no stack, and the program counter is never masked to the address space.
The model follows the code.

## Model

| member | source | states |
|---|---|---|
| Chip8.Init | chip8.py:13-47 | After construction the state is well formed: 4096 bytes of memory, only the timers `delay` and `sound`, and exactly the sixteen registers. Bytes 0..79 are the font, every byte from 80 to 4095 is 0, pc = 0x200, index = 0, sp = 0x52, both timers are 0, every register is 0, the current opcode is "0000", and no debug opcode is set yet |
| Chip8.InitialMemory | chip8.py:14-47 | `bytearray(4096)` with the font loaded is 4096 bytes: font bytes below address 80, zero from 80 on |
| Chip8.LoadFont | chip8.py:46-47 | After k rounds of the font loop, addresses below k hold the font's bytes and every other address keeps its old byte; the memory length is unchanged |
| Chip8.InitialRegisters | chip8.py:23-25 | The register dict has exactly 16 keys, which are exactly "v0".."v9", "va".."vf", all holding 0 |
| Chip8.ZeroRegisters | chip8.py:24-25 | After k rounds of the register loop, the dict holds exactly the registers numbered below k, all 0 |
| Chip8.ZeroedBelowSize | chip8.py:24-25 | The loop's k rounds create k distinct keys: no two register numbers share a name |
| Chip8.RegisterNameInjective | chip8.py:25 | `'v' + hex(i)[2:]` gives distinct names for distinct i below 16 |
| Chip8.RegisterNamesSpelled | chip8.py:25 | The computed names are v0..v9 then va..vf, in that order, with lower-case digits from `hex` |
| Chip8.RegisterLoopBuildsInitialRegisters | chip8.py:23-25 | The 16-round loop builds exactly the constructor's register dict |
| Font.RowsMatchPictures | chip8.py:28-45 | Each of the 16 five-byte rows of the font table encodes its digit's 4x5 picture, pixels in the high nibble |
| Font.TableLayout | chip8.py:28-45 | The flat font list is 80 bytes, and row r of glyph d is at offset 5d + r |
| Font.BytesAreAllRows | chip8.py:28-45 | The flat font list is exactly the sixteen five-byte glyph rows one after another, in digit order 0-F |
| Font.RowsBeforeLayout | chip8.py:28-45 | The first k glyphs take 5k bytes of the list, and byte r of glyph d (d < k) sits at offset 5d + r |
| Chip8.InitialFontPrefix | chip8.py:14-47 | After construction the first 80 bytes of memory are exactly the font list |
| Font.GlyphSlice | chip8.py:28-45 | Glyph d is the five consecutive bytes at 5d..5d+4 of the font list |
| Chip8.InitialGlyph | chip8.py:28-47 | After construction `memory[5d..5d+5)` is glyph d, and glyph d is the picture of digit d |
| Dispatch.FirstMatch | chip8.py:52-85 | The chain yields the position of the FIRST rule whose guard holds, or none exactly when no guard holds |
| Dispatch.ShadowedRuleNeverFires | chip8.py:52-55 | A rule never fires when its guard implies an earlier rule's guard |
| Dispatch.ClearScreenUnreachable | chip8.py:52-55 | Because `opcode[0] == '0'` is tested before `opcode == '00E0'`, no opcode reaches the clear-screen branch; "00E0" takes the 0NNN branch |
| Dispatch.SelectIsFamily | chip8.py:52-85 | The branch taken is the family of the opcode's first character ('0'-'9', 'A'-'F'). No branch is taken exactly when that character is not an upper-case hex digit, so lower-case "a000" matches nothing |
| Dispatch.FallThroughHasNoFamily | chip8.py:52-85 | When no guard of the chain holds, the opcode's first character names no instruction family |
| Chip8.BranchesChangeNothing | chip8.py:52-100 | Executing any selected branch leaves the state as it was. The branch bodies are `pass`, and the clear-screen branch calls the `clear_display` stub (lines 99-100), which changes nothing either |
| Chip8.DecodeExecute | chip8.py:50-87 | An integer opcode raises TypeError and the empty string raises IndexError; in both cases nothing changes. Any non-empty string, matched or not, returns the same state with pc + 2: memory, registers, index, sp, timers and current opcode are unchanged. Well-formedness is preserved |
| Chip8.RunAdvancesPc | chip8.py:87 | k successive calls on non-empty strings return the state with pc0 + 2k and nothing else changed; pc is never masked |
| Chip8.PcRunsPastMemory | chip8.py:87 | 1792 calls from the initial state take pc to 0x1000, past the last address, and the next fetch raises IndexError |
| Chip8.Fetch | chip8.py:90-97 | A non-empty `operation` only sets the debug attribute. None or "" reads memory. It raises IndexError, changing nothing, exactly when pc or pc + 1 is out of Python index range. Otherwise it raises TypeError with current_opcode set to the integer sum of the two bytes, in [0, 510]. pc, memory and registers never change |
| Chip8.FetchFromMemoryRaises | chip8.py:94-97 | For a well-formed state with pc >= 0, a memory fetch always raises: IndexError iff pc + 1 >= 4096, TypeError iff pc + 1 < 4096, with current_opcode = memory[pc] + memory[pc+1] |
| FetchFix.SumForgetsByteOrder | chip8.py:94-97 | As written, an instruction and its byte-swapped twin leave the same current_opcode, and both raise TypeError. The corrected fetch tells them apart whenever the two bytes differ |
| FetchFix.ClearScreenFetch | chip8.py:94-97 | Bytes 00 E0 (clear screen) become the integer 0xE0 and raise TypeError as written; corrected, they become "00E0" and pc advances by 2 |
| FetchFix.SwappedClearScreenFetch | chip8.py:94-97 | The swapped bytes E0 00 also become the integer 0xE0 and raise TypeError as written; corrected, they return with pc + 2 and an opcode other than "00E0" |
| FetchFix.FetchWord | chip8.py:94-97 | Corrected fetch: in range, it returns with pc + 2, and the stored opcode string parses back to high*256 + low; out of range it raises IndexError with nothing changed |
| FetchFix.Hex4RoundTrip | chip8.py:96 | The four-digit upper-case hex form of a 16-bit word parses back to the word |
| FetchFix.WordSplits | chip8.py:94-96 | A word gives back its high and low bytes, so distinct byte pairs give distinct words |
| FetchFix.WordSelectsByTopNibble | chip8.py:52-85 | Under the corrected fetch, every instruction word selects a branch: the family named by the top nibble of its high byte |

## Left out

- `draw` and any framebuffer: a `pass` stub, and the class keeps no pixel state.
- Instruction semantics (jump, call and return, skips, register arithmetic and flags, index
  operations, draw, BCD, register dump and load, keypad, timers): each appears only in the
  comments beside a `pass` branch.
- Timer decay, random numbers, clock rate and scheduling: not in the code.
- ROM loading, windowing, keyboard input and any entry point: I/O that the class does not
  contain.
- Python.Hex: models `hex(n)` only for 0 <= n < 16, the only arguments the constructor gives it.
- Python's `bytearray` store check (values must lie in 0..255) is carried by the `byte` type.
  Every font byte satisfies it, so the constructor cannot raise.
- `fetch_instr`'s `operation` argument is modelled as an optional string. A truthy non-string
  argument is outside the model.

## Findings

| source | as written | input that shows it | evidently intended | confidence | as-written member | corrected member |
|---|---|---|---|---|---|---|
| chip8.py:94-97 | `current_opcode = high + low`: the two bytes are ADDED, and the integer sum goes to `decode_execute`, which subscripts it | Bytes 00 E0 (clear screen) and E0 00 both give 0xE0. `decode_execute(0xE0)` then raises TypeError at `opcode[0]`, so no fetched instruction ever executes | The 16-bit instruction high*256 + low, as four upper-case hex digits ("00E0"), the string form the dispatch chain compares against | high; not executed | FetchFix.SumForgetsByteOrder | FetchFix.FetchWord |

`Chip8.Fetch` models the code as written; `FetchFix.FetchWord` is the corrected fetch. It
reuses `DecodeExecute` and the dispatch chain unchanged. `FetchFix.WordSelectsByTopNibble`
shows that under the corrected fetch every instruction word reaches a branch.
