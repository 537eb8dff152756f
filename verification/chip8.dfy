/**
 * The interpreter's state and its three operations: construction, one
 * decode-and-execute step, and one fetch. The state is a value; each
 * operation returns the state it leaves behind, or the exception it raises
 * together with the state as it stands when the exception escapes.
 */
module Chip8 {
  import opened Wrappers
  import opened Python
  import Font
  import Dispatch

  /** Size of the memory, in bytes. */
  const MemorySize := 4096
  /** Where programs start, and where the program counter starts. */
  const ProgramStart := 0x200
  /** The stack pointer's starting value. */
  const InitialStackPointer := 0x52
  /** How many general registers there are. */
  const RegisterCount := 16

  /** A value held by the untyped `current_opcode` attribute: the constructor
      stores a string there and the fetch step stores an integer. */
  datatype Value = Str(s: string) | Int(n: int)

  datatype Machine = Machine(
    memory: seq<byte>,           // the 4096-byte RAM
    pc: int,                     // program counter
    index: int,                  // index register I
    sp: int,                     // stack pointer
    timers: map<string, int>,    // "delay" and "sound"
    register: map<string, int>,  // "v0" .. "vf"
    currentOpcode: Value,        // the instruction last fetched
    debugOpcode: Option<string>  // the `opcode` attribute, set only by a debug fetch
  )

  /** What a call does: it returns, leaving `state`, or raises `error`,
      leaving `state` as it was when the exception escaped. */
  datatype Outcome =
    | Returned(state: Machine)
    | Raised(error: Exception, state: Machine)

  /** The name the constructor gives register `i`: "v" and the digit `hex`
      writes for `i`. */
  function RegisterName(i: nat): string
    requires i < RegisterCount
  {
    "v" + Hex(i)[2..]
  }

  /** The register names, V0 to VF, spelled as the interpreter keys them. */
  const RegisterNames: seq<string> := [
    "v0", "v1", "v2", "v3", "v4", "v5", "v6", "v7",
    "v8", "v9", "va", "vb", "vc", "vd", "ve", "vf"
  ]

  /** Distinct registers get distinct names. */
  lemma RegisterNameInjective(i: nat, j: nat)
    requires i < RegisterCount && j < RegisterCount && i != j
    ensures RegisterName(i) != RegisterName(j)
  {
    HexOfSmall(i);
    HexOfSmall(j);
    HexDigitInjective(i, j);
    assert RegisterName(i)[1] != RegisterName(j)[1];
  }

  /** The names the constructor computes are V0 to VF. */
  lemma {:induction false} RegisterNamesSpelled()
    ensures forall i :: 0 <= i < RegisterCount ==> RegisterName(i) == RegisterNames[i]
  {
    forall i | 0 <= i < RegisterCount
      ensures RegisterName(i) == RegisterNames[i]
    {
      HexOfSmall(i);
    }
  }

  /** The registers numbered below `k`, each holding 0. */
  function ZeroedBelow(k: nat): (regs: map<string, int>)
    requires k <= RegisterCount
  {
    map i | 0 <= i < k :: RegisterName(i) := 0
  }

  /** Register `k` is not among the registers numbered below it. */
  lemma NameNotBelow(k: nat)
    requires k < RegisterCount
    ensures RegisterName(k) !in ZeroedBelow(k)
  {
    forall i | 0 <= i < k
      ensures RegisterName(i) != RegisterName(k)
    {
      RegisterNameInjective(i, k);
    }
  }

  /** There are exactly `k` registers numbered below `k`: no two share a name. */
  lemma {:induction false} ZeroedBelowSize(k: nat)
    requires k <= RegisterCount
    ensures |ZeroedBelow(k)| == k
  {
    if k > 0 {
      ZeroedBelowSize(k - 1);
      NameNotBelow(k - 1);
      var keys := ZeroedBelow(k - 1).Keys;
      assert ZeroedBelow(k).Keys == keys + {RegisterName(k - 1)};
      assert |keys + {RegisterName(k - 1)}| == |keys| + 1;
    }
  }

  /** The register file after the first `k` rounds of the constructor's
      loop, each round storing 0 under the next register name: the registers
      numbered below `k`, all zero. */
  function ZeroRegisters(k: nat): (regs: map<string, int>)
    requires k <= RegisterCount
    ensures regs == ZeroedBelow(k)
  {
    if k == 0 then map[]
    else
      var before := ZeroRegisters(k - 1);
      var after := before[RegisterName(k - 1) := 0];
      assert after.Keys == ZeroedBelow(k).Keys;
      after
  }

  /** The memory after the first `k` rounds of the constructor's font loop:
      each round copies the next font byte to the same address. */
  function LoadFont(memory: seq<byte>, font: seq<byte>, k: nat): (loaded: seq<byte>)
    requires k <= |font| <= |memory|
    ensures |loaded| == |memory|
    ensures forall a :: 0 <= a < k ==> loaded[a] == font[a]
    ensures forall a :: k <= a < |memory| ==> loaded[a] == memory[a]
  {
    if k == 0 then memory else LoadFont(memory, font, k - 1)[k - 1 := font[k - 1]]
  }

  /** The shape every state of the interpreter has: a 4096-byte memory, the
      two timers and the sixteen registers, nothing else in either dict (the
      sixteen names being distinct, sixteen keys leave room for no other). */
  ghost predicate WellFormed(m: Machine)
  {
    && |m.memory| == MemorySize
    && m.timers.Keys == {"delay", "sound"}
    && |m.register| == RegisterCount
    && forall i :: 0 <= i < RegisterCount ==> RegisterName(i) in m.register
  }

  /** The constructor's memory: a zeroed `bytearray(4096)` with the font
      copied to its start. */
  function InitialMemory(): (memory: seq<byte>)
    ensures |memory| == MemorySize
    ensures forall a :: 0 <= a < |Font.Bytes| ==> memory[a] == Font.Bytes[a]
    ensures forall a :: |Font.Bytes| <= a < MemorySize ==> memory[a] == 0
  {
    Font.TableLayout();
    LoadFont(seq(MemorySize, _ => 0), Font.Bytes, |Font.Bytes|)
  }

  /** The constructor's register file: exactly the sixteen registers V0 to
      VF, each holding 0. */
  function InitialRegisters(): (regs: map<string, int>)
    ensures |regs| == RegisterCount
    ensures forall i :: 0 <= i < RegisterCount ==> RegisterName(i) in regs
    ensures forall name :: name in regs <==> name in RegisterNames
    ensures forall name :: name in regs ==> regs[name] == 0
  {
    var regs := ZeroedBelow(RegisterCount);
    ZeroedBelowSize(RegisterCount);
    RegisterNamesSpelled();
    regs
  }

  /** The constructor's loop builds exactly that register file. */
  lemma RegisterLoopBuildsInitialRegisters()
    ensures ZeroRegisters(RegisterCount) == InitialRegisters()
  {
  }

  /** The state the constructor builds. */
  function Init(): (m: Machine)
    ensures WellFormed(m)
    ensures forall a :: 0 <= a < |Font.Bytes| ==> m.memory[a] == Font.Bytes[a]
    ensures forall a :: |Font.Bytes| <= a < MemorySize ==> m.memory[a] == 0
    ensures m.pc == 0x200 && m.index == 0 && m.sp == 0x52
    ensures "delay" in m.timers && m.timers["delay"] == 0
    ensures "sound" in m.timers && m.timers["sound"] == 0
    ensures forall name :: name in m.register <==> name in RegisterNames
    ensures forall name :: name in m.register ==> m.register[name] == 0
    ensures m.currentOpcode == Str("0000") && m.debugOpcode.None?
  {
    Machine(
      memory := InitialMemory(),
      pc := ProgramStart,
      index := 0,
      sp := InitialStackPointer,
      timers := map["delay" := 0, "sound" := 0],
      register := InitialRegisters(),
      currentOpcode := Str("0000"),
      debugOpcode := None)
  }

  /** After construction the first 80 bytes of memory are the font table. */
  lemma InitialFontPrefix()
    ensures |Font.Bytes| == Font.GlyphCount * Font.GlyphHeight
    ensures Init().memory[..|Font.Bytes|] == Font.Bytes
  {
    Font.TableLayout();
    var m := Init();
    assert |m.memory| == MemorySize;
  }

  /** After construction glyph `d` of the font sits at 5d .. 5d+4 and is the
      picture of digit `d`. */
  lemma InitialGlyph(d: nat)
    requires d < Font.GlyphCount
    ensures Init().memory[Font.GlyphHeight * d .. Font.GlyphHeight * d + Font.GlyphHeight] == Font.Rows[d]
    ensures Font.Rows[d] == Font.Encode(Font.Pictures[d])
  {
    InitialFontPrefix();
    Font.GlyphSlice(d);
    Font.RowMatchesPicture(d);
    var memory := Init().memory;
    var base := Font.GlyphHeight * d;
    assert memory[base .. base + Font.GlyphHeight] == memory[..|Font.Bytes|][base .. base + Font.GlyphHeight];
  }

  /** The display stub: clearing the screen changes nothing. */
  function ClearDisplay(m: Machine): Machine
  {
    m
  }

  /** The effect of a selected branch: every branch body is `pass` except the
      clear-screen one, which calls the display stub. */
  function Execute(m: Machine, branch: Option<Dispatch.Branch>): Machine
  {
    match branch
    case Some(ClearScreen) => ClearDisplay(m)
    case _ => m
  }

  /** Whatever branch the chain selects, executing it changes nothing: the
      bodies are `pass` and the display stub does nothing either. */
  lemma BranchesChangeNothing(m: Machine, branch: Option<Dispatch.Branch>)
    ensures Execute(m, branch) == m
  {
  }

  /** `decode_execute(opcode)`: subscripting the opcode raises TypeError for
      an integer and IndexError for the empty string; otherwise the chain
      selects a branch (or none) and the program counter advances by 2. */
  function DecodeExecute(m: Machine, opcode: Value): (r: Outcome)
    ensures opcode.Int? ==> r == Raised(TypeError, m)
    ensures opcode == Str("") ==> r == Raised(IndexError, m)
    ensures opcode.Str? && opcode.s != "" ==> r == Returned(m.(pc := m.pc + 2))
    ensures WellFormed(m) ==> WellFormed(r.state)
  {
    match opcode
    case Int(_) => Raised(TypeError, m)
    case Str(s) =>
      if |s| == 0 then Raised(IndexError, m)
      else
        var executed := Execute(m, Dispatch.Select(s));
        Returned(executed.(pc := executed.pc + 2))
  }

  /** `fetch_instr(operation)`: a non-empty `operation` is only recorded in
      the debug attribute. With no operation (or an empty one) the bytes at
      `pc` and `pc + 1` are read, their integer SUM is stored as the current
      opcode, and that integer is handed to `decode_execute`, which raises
      TypeError on it. */
  function Fetch(m: Machine, operation: Option<string>): (r: Outcome)
    ensures operation.Some? && operation.value != "" ==>
      r == Returned(m.(debugOpcode := operation))
    ensures (operation.None? || operation == Some("")) ==> r.Raised?
    ensures r.Raised? && r.error == IndexError <==>
      (operation.None? || operation == Some("")) && !(-|m.memory| <= m.pc && m.pc + 1 < |m.memory|)
    ensures r.Raised? && r.error == IndexError ==> r.state == m
    ensures r.Raised? && r.error == TypeError ==>
      && Index(m.memory, m.pc).Ok? && Index(m.memory, m.pc + 1).Ok?
      && r.state == m.(currentOpcode := Int(Index(m.memory, m.pc).value as int + Index(m.memory, m.pc + 1).value))
      && 0 <= r.state.currentOpcode.n <= 510
    ensures r.state.pc == m.pc && r.state.memory == m.memory && r.state.register == m.register
    ensures WellFormed(m) ==> WellFormed(r.state)
  {
    if operation.Some? && operation.value != "" then
      Returned(m.(debugOpcode := operation))
    else
      match Index(m.memory, m.pc)
      case Err(e) => Raised(e, m)
      case Ok(high) =>
        match Index(m.memory, m.pc + 1)
        case Err(e) => Raised(e, m)
        case Ok(low) =>
          var fetched := m.(currentOpcode := Int(high as int + low));
          DecodeExecute(fetched, fetched.currentOpcode)
  }

  /** A sequence of `decode_execute` calls, stopping at the first that raises. */
  function Run(m: Machine, opcodes: seq<Value>): Outcome
    decreases |opcodes|
  {
    if |opcodes| == 0 then Returned(m)
    else match DecodeExecute(m, opcodes[0])
      case Raised(e, s) => Raised(e, s)
      case Returned(s) => Run(s, opcodes[1..])
  }

  /** Whether every opcode of a sequence is a non-empty string. */
  predicate AllNonEmptyStrings(opcodes: seq<Value>)
  {
    forall k :: 0 <= k < |opcodes| ==> opcodes[k].Str? && opcodes[k].s != ""
  }

  /** `k` steps on non-empty string opcodes move the program counter by
      exactly `2k`, with no masking to the address space, and change nothing
      else. */
  lemma {:induction false} RunAdvancesPc(m: Machine, opcodes: seq<Value>)
    requires AllNonEmptyStrings(opcodes)
    ensures Run(m, opcodes) == Returned(m.(pc := m.pc + 2 * |opcodes|))
    decreases |opcodes|
  {
    if |opcodes| > 0 {
      var next := m.(pc := m.pc + 2);
      assert DecodeExecute(m, opcodes[0]) == Returned(next);
      RunAdvancesPc(next, opcodes[1..]);
    }
  }

  /** The program counter is never masked: 1792 steps from the initial state
      carry it to 0x1000, past the last address, and the next fetch then
      raises IndexError. */
  lemma PcRunsPastMemory()
    ensures Run(Init(), seq(1792, _ => Str("0000"))).state.pc == 0x1000
    ensures Fetch(Run(Init(), seq(1792, _ => Str("0000"))).state, None) ==
      Raised(IndexError, Run(Init(), seq(1792, _ => Str("0000"))).state)
  {
    var opcodes: seq<Value> := seq(1792, _ => Str("0000"));
    RunAdvancesPc(Init(), opcodes);
  }

  /** A fetch from memory never completes: it raises IndexError when `pc` or
      `pc + 1` is outside the memory, and TypeError otherwise. */
  lemma FetchFromMemoryRaises(m: Machine)
    requires WellFormed(m) && 0 <= m.pc
    ensures Fetch(m, None).Raised?
    ensures Fetch(m, None).error == IndexError <==> m.pc + 1 >= MemorySize
    ensures Fetch(m, None).error == TypeError <==> m.pc + 1 < MemorySize
    ensures m.pc + 1 < MemorySize ==>
      Fetch(m, None).state.currentOpcode == Int(m.memory[m.pc] as int + m.memory[m.pc + 1])
  {
  }
}
