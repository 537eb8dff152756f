/**
 * How `decode_execute` picks a branch: a chain of guards tried in order, the
 * first that holds wins. Every guard but one looks only at the opcode's first
 * character; the clear-screen guard compares the whole opcode with "00E0".
 */
module Dispatch {
  import opened Wrappers
  import opened Python

  /** The branches of the chain, named after the instruction family each
      one's comment describes. */
  datatype Branch =
    | MachineRoutine          // 0NNN
    | ClearScreen             // 00E0
    | Jump                    // 1NNN
    | Call                    // 2NNN
    | SkipIfEqualImmediate    // 3XNN
    | SkipIfNotEqualImmediate // 4XNN
    | SkipIfEqualRegisters    // 5XY0
    | SetImmediate            // 6XNN
    | AddImmediate            // 7XNN
    | Logical                 // 8XY-
    | SkipIfNotEqualRegisters // 9XY0
    | SetIndex                // ANNN
    | JumpWithOffset          // BNNN
    | RandomAnd               // CXNN
    | Draw                    // DXYN
    | KeyConditional          // EX--
    | MemoryAndTimers         // FX--

  /** A guard of the chain. */
  datatype Guard =
    | FirstCharIs(c: char)    // opcode[0] == c
    | WholeIs(text: string)   // opcode == text

  datatype Rule = Rule(guard: Guard, branch: Branch)

  /** Whether a guard holds of a non-empty opcode string. */
  predicate Holds(g: Guard, opcode: string)
    requires |opcode| > 0
  {
    match g
    case FirstCharIs(c) => opcode[0] == c
    case WholeIs(text) => opcode == text
  }

  /** The chain in the order `decode_execute` tests it. */
  const Chain: seq<Rule> := [
    Rule(FirstCharIs('0'), MachineRoutine),
    Rule(WholeIs("00E0"), ClearScreen),
    Rule(FirstCharIs('1'), Jump),
    Rule(FirstCharIs('2'), Call),
    Rule(FirstCharIs('3'), SkipIfEqualImmediate),
    Rule(FirstCharIs('4'), SkipIfNotEqualImmediate),
    Rule(FirstCharIs('5'), SkipIfEqualRegisters),
    Rule(FirstCharIs('6'), SetImmediate),
    Rule(FirstCharIs('7'), AddImmediate),
    Rule(FirstCharIs('8'), Logical),
    Rule(FirstCharIs('9'), SkipIfNotEqualRegisters),
    Rule(FirstCharIs('A'), SetIndex),
    Rule(FirstCharIs('B'), JumpWithOffset),
    Rule(FirstCharIs('C'), RandomAnd),
    Rule(FirstCharIs('D'), Draw),
    Rule(FirstCharIs('E'), KeyConditional),
    Rule(FirstCharIs('F'), MemoryAndTimers)
  ]

  /** The position of the first rule whose guard holds, if any. */
  function FirstMatch(rules: seq<Rule>, opcode: string): (r: Option<nat>)
    requires |opcode| > 0
    ensures r.None? <==> forall i :: 0 <= i < |rules| ==> !Holds(rules[i].guard, opcode)
    ensures r.Some? ==>
      && r.value < |rules|
      && Holds(rules[r.value].guard, opcode)
      && forall j :: 0 <= j < r.value ==> !Holds(rules[j].guard, opcode)
  {
    if |rules| == 0 then None
    else if Holds(rules[0].guard, opcode) then Some(0)
    else match FirstMatch(rules[1..], opcode)
      case None => None
      case Some(i) => Some(i + 1)
  }

  /** The branch `decode_execute` takes for a non-empty opcode; None when the
      chain falls through without a match. */
  function Select(opcode: string): Option<Branch>
    requires |opcode| > 0
  {
    match FirstMatch(Chain, opcode)
    case None => None
    case Some(i) => Some(Chain[i].branch)
  }

  /** The family an opcode belongs to by its leading character, as the
      comments of the chain describe it; the reference `Select` is checked
      against. Only upper-case hexadecimal digits name a family. */
  function Family(c: char): Option<Branch>
  {
    match c
    case '0' => Some(MachineRoutine)
    case '1' => Some(Jump)
    case '2' => Some(Call)
    case '3' => Some(SkipIfEqualImmediate)
    case '4' => Some(SkipIfNotEqualImmediate)
    case '5' => Some(SkipIfEqualRegisters)
    case '6' => Some(SetImmediate)
    case '7' => Some(AddImmediate)
    case '8' => Some(Logical)
    case '9' => Some(SkipIfNotEqualRegisters)
    case 'A' => Some(SetIndex)
    case 'B' => Some(JumpWithOffset)
    case 'C' => Some(RandomAnd)
    case 'D' => Some(Draw)
    case 'E' => Some(KeyConditional)
    case 'F' => Some(MemoryAndTimers)
    case _ => None
  }

  /** A rule whose guard implies the guard of an earlier rule never fires. */
  lemma {:induction false} ShadowedRuleNeverFires(rules: seq<Rule>, earlier: nat, later: nat, opcode: string)
    requires earlier < later < |rules| && |opcode| > 0
    requires Holds(rules[later].guard, opcode) ==> Holds(rules[earlier].guard, opcode)
    ensures FirstMatch(rules, opcode) != Some(later)
  {
  }

  /** The clear-screen branch is unreachable: "00E0" starts with '0', so the
      machine-routine rule before it always takes it first. */
  lemma ClearScreenUnreachable(opcode: string)
    requires |opcode| > 0
    ensures Select(opcode) != Some(ClearScreen)
    ensures Select("00E0") == Some(MachineRoutine)
  {
    ShadowedRuleNeverFires(Chain, 0, 1, opcode);
    assert forall i :: 0 <= i < |Chain| && Chain[i].branch == ClearScreen ==> i == 1;
  }

  /** Every rule but the clear-screen one tests a leading character, and
      selects that character's family. */
  lemma {:induction false} ChainFollowsFamilies(i: nat)
    requires i < |Chain| && i != 1
    ensures Chain[i].guard.FirstCharIs?
    ensures Family(Chain[i].guard.c) == Some(Chain[i].branch)
  {
  }

  /** The chain selects exactly the family of the opcode's first character;
      every other character, lower-case hexadecimal digits included, falls
      through. */
  lemma {:induction false} SelectIsFamily(opcode: string)
    requires |opcode| > 0
    ensures Select(opcode) == Family(opcode[0])
    ensures Select(opcode).None? <==> opcode[0] !in "0123456789ABCDEF"
  {
    match FirstMatch(Chain, opcode)
    case Some(i) =>
      // rule 1 cannot be first: its guard implies rule 0's
      ShadowedRuleNeverFires(Chain, 0, 1, opcode);
      ChainFollowsFamilies(i);
    case None =>
      FallThroughHasNoFamily(opcode);
  }

  /** An opcode no rule matches starts with a character outside every family. */
  lemma {:induction false} FallThroughHasNoFamily(opcode: string)
    requires |opcode| > 0 && FirstMatch(Chain, opcode).None?
    ensures Family(opcode[0]).None?
  {
      assert !Holds(Chain[0].guard, opcode) && Chain[0].guard.c == '0';
      assert !Holds(Chain[2].guard, opcode) && Chain[2].guard.c == '1';
      assert !Holds(Chain[3].guard, opcode) && Chain[3].guard.c == '2';
      assert !Holds(Chain[4].guard, opcode) && Chain[4].guard.c == '3';
      assert !Holds(Chain[5].guard, opcode) && Chain[5].guard.c == '4';
      assert !Holds(Chain[6].guard, opcode) && Chain[6].guard.c == '5';
      assert !Holds(Chain[7].guard, opcode) && Chain[7].guard.c == '6';
      assert !Holds(Chain[8].guard, opcode) && Chain[8].guard.c == '7';
      assert !Holds(Chain[9].guard, opcode) && Chain[9].guard.c == '8';
      assert !Holds(Chain[10].guard, opcode) && Chain[10].guard.c == '9';
      assert !Holds(Chain[11].guard, opcode) && Chain[11].guard.c == 'A';
      assert !Holds(Chain[12].guard, opcode) && Chain[12].guard.c == 'B';
      assert !Holds(Chain[13].guard, opcode) && Chain[13].guard.c == 'C';
      assert !Holds(Chain[14].guard, opcode) && Chain[14].guard.c == 'D';
      assert !Holds(Chain[15].guard, opcode) && Chain[15].guard.c == 'E';
      assert !Holds(Chain[16].guard, opcode) && Chain[16].guard.c == 'F';
  }
}
