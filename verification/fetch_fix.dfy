/**
 * The fetch step as its comments say it should behave: the two bytes at the
 * program counter form ONE 16-bit instruction (high byte first), written as
 * four upper-case hexadecimal digits, the form the dispatch chain compares
 * against ("00E0", leading '0' to 'F'). The interpreter as written instead
 * adds the two bytes and hands the integer sum to the dispatcher; `Chip8.Fetch`
 * models that, and the lemmas below set the two side by side.
 */
module FetchFix {
  import opened Wrappers
  import opened Python
  import opened Chip8
  import Dispatch

  /** The 16-bit instruction whose high byte is `high` and low byte `low`. */
  function Word(high: byte, low: byte): (w: nat)
    ensures w < 0x10000
  {
    high * 256 + low
  }

  /** An instruction word gives back its two bytes: no two byte pairs share
      a word. */
  lemma WordSplits(high: byte, low: byte)
    ensures Word(high, low) / 256 == high && Word(high, low) % 256 == low
  {
  }

  /** The upper-case hexadecimal digit of a value below 16. */
  function UpperHexDigit(d: nat): char
    requires d < 16
  {
    if d < 10 then ('0' as int + d) as char else ('A' as int + (d - 10)) as char
  }

  /** The value of an upper-case hexadecimal digit, if `c` is one. */
  function DigitValue(c: char): (v: Option<nat>)
    ensures v.Some? ==> v.value < 16
  {
    if '0' <= c <= '9' then Some(c as int - '0' as int)
    else if 'A' <= c <= 'F' then Some(c as int - 'A' as int + 10)
    else None
  }

  /** Every digit written is one of the sixteen upper-case hexadecimal digits. */
  lemma UpperHexDigitIsDigit(d: nat)
    requires d < 16
    ensures UpperHexDigit(d) in "0123456789ABCDEF"
  {
  }

  lemma DigitRoundTrip(d: nat)
    requires d < 16
    ensures DigitValue(UpperHexDigit(d)) == Some(d)
  {
  }

  /** A 16-bit word as four upper-case hexadecimal digits, most significant
      first. */
  function Hex4(w: nat): (s: string)
    requires w < 0x10000
    ensures |s| == 4
  {
    [UpperHexDigit(w / 16 / 16 / 16), UpperHexDigit(w / 16 / 16 % 16), UpperHexDigit(w / 16 % 16), UpperHexDigit(w % 16)]
  }

  /** The word four upper-case hexadecimal digits stand for. */
  function ParseHex4(s: string): Option<nat>
  {
    if |s| != 4 then None
    else
      var a, b, c, d := DigitValue(s[0]), DigitValue(s[1]), DigitValue(s[2]), DigitValue(s[3]);
      if a.None? || b.None? || c.None? || d.None? then None
      else Some(((a.value * 16 + b.value) * 16 + c.value) * 16 + d.value)
  }

  /** Four upper-case digits read back as the word they spell. */
  lemma {:induction false} ParseDigits(a: nat, b: nat, c: nat, d: nat)
    requires a < 16 && b < 16 && c < 16 && d < 16
    ensures ParseHex4([UpperHexDigit(a), UpperHexDigit(b), UpperHexDigit(c), UpperHexDigit(d)])
      == Some(((a * 16 + b) * 16 + c) * 16 + d)
  {
    var s := [UpperHexDigit(a), UpperHexDigit(b), UpperHexDigit(c), UpperHexDigit(d)];
    DigitRoundTrip(a);
    DigitRoundTrip(b);
    DigitRoundTrip(c);
    DigitRoundTrip(d);
    assert DigitValue(s[0]) == Some(a) && DigitValue(s[1]) == Some(b);
    assert DigitValue(s[2]) == Some(c) && DigitValue(s[3]) == Some(d);
    ParseOfValues(s, a, b, c, d);
  }

  /** A four-character string whose digits have values a, b, c, d parses to
      the word they spell. */
  lemma ParseOfValues(s: string, a: nat, b: nat, c: nat, d: nat)
    requires |s| == 4
    requires DigitValue(s[0]) == Some(a) && DigitValue(s[1]) == Some(b)
    requires DigitValue(s[2]) == Some(c) && DigitValue(s[3]) == Some(d)
    ensures ParseHex4(s) == Some(((a * 16 + b) * 16 + c) * 16 + d)
  {
  }

  /** A word below 0x10000 is the sum of its four hexadecimal digits, each
      weighted by its place. */
  lemma {:induction false} PlaceValues(w: nat)
    requires w < 0x10000
    ensures w / 16 / 16 / 16 < 16
    ensures w == ((w / 16 / 16 / 16 * 16 + w / 16 / 16 % 16) * 16 + w / 16 % 16) * 16 + w % 16
  {
    var q1 := w / 16;
    var q2 := q1 / 16;
    var q3 := q2 / 16;
    assert w == q1 * 16 + w % 16;
    assert q1 == q2 * 16 + q1 % 16;
    assert q2 == q3 * 16 + q2 % 16;
  }

  /** Writing a word in hexadecimal and reading it back gives the word. */
  lemma {:induction false} Hex4RoundTrip(w: nat)
    requires w < 0x10000
    ensures ParseHex4(Hex4(w)) == Some(w)
  {
    var a, b, c, d := w / 16 / 16 / 16, w / 16 / 16 % 16, w / 16 % 16, w % 16;
    PlaceValues(w);
    assert Hex4(w) == [UpperHexDigit(a), UpperHexDigit(b), UpperHexDigit(c), UpperHexDigit(d)];
    ParseDigits(a, b, c, d);
  }

  /** The corrected fetch: read the bytes at `pc` and `pc + 1`, store their
      word in hexadecimal as the current opcode, and hand that string to
      `decode_execute`, which then advances the program counter. */
  function FetchWord(m: Machine): (r: Outcome)
    ensures -|m.memory| <= m.pc && m.pc + 1 < |m.memory| ==>
      && r.Returned?
      && r.state.pc == m.pc + 2
      && r.state == m.(pc := m.pc + 2, currentOpcode := r.state.currentOpcode)
      && r.state.currentOpcode.Str?
      && ParseHex4(r.state.currentOpcode.s) ==
         Some(Word(Index(m.memory, m.pc).value, Index(m.memory, m.pc + 1).value))
    ensures !(-|m.memory| <= m.pc && m.pc + 1 < |m.memory|) ==> r == Raised(IndexError, m)
  {
    match Index(m.memory, m.pc)
    case Err(e) => Raised(e, m)
    case Ok(high) =>
      match Index(m.memory, m.pc + 1)
      case Err(e) => Raised(e, m)
      case Ok(low) =>
        Hex4RoundTrip(Word(high, low));
        var fetched := m.(currentOpcode := Str(Hex4(Word(high, low))));
        DecodeExecute(fetched, fetched.currentOpcode)
  }

  /** With the corrected fetch every instruction word selects a branch, and
      the branch is the family named by the top nibble of the high byte. */
  lemma {:induction false} WordSelectsByTopNibble(high: byte, low: byte)
    ensures Dispatch.Select(Hex4(Word(high, low))) == Dispatch.Family(UpperHexDigit(high / 16))
    ensures Dispatch.Select(Hex4(Word(high, low))).Some?
  {
    var s := Hex4(Word(high, low));
    assert Word(high, low) / 16 / 16 == high;
    UpperHexDigitIsDigit(high / 16);
    Dispatch.SelectIsFamily(s);
  }

  /** The fetch as written confuses instructions: an instruction and the one
      with its two bytes swapped leave the same current opcode (their sum)
      and both raise TypeError, while the corrected fetch tells them apart
      whenever the bytes differ. */
  lemma {:induction false} SumForgetsByteOrder(m: Machine)
    requires 0 <= m.pc && m.pc + 1 < |m.memory|
    ensures
      var swapped := m.(memory := m.memory[m.pc := m.memory[m.pc + 1]][m.pc + 1 := m.memory[m.pc]]);
      && Fetch(m, None).Raised? && Fetch(m, None).error == TypeError
      && Fetch(swapped, None).Raised? && Fetch(swapped, None).error == TypeError
      && Fetch(m, None).state.currentOpcode == Fetch(swapped, None).state.currentOpcode
      && (m.memory[m.pc] != m.memory[m.pc + 1] ==>
            FetchWord(m).state.currentOpcode != FetchWord(swapped).state.currentOpcode)
  {
    var swapped := m.(memory := m.memory[m.pc := m.memory[m.pc + 1]][m.pc + 1 := m.memory[m.pc]]);
    var high, low := m.memory[m.pc], m.memory[m.pc + 1];
    assert swapped.memory[m.pc] == low && swapped.memory[m.pc + 1] == high;
    if high != low {
      WordSplits(high, low);
      WordSplits(low, high);
      assert Word(high, low) != Word(low, high);
    }
  }

  /** A concrete case: clear-screen (bytes 00 E0) becomes the integer 0xE0
      as written, and the dispatcher raises TypeError without advancing;
      corrected, it becomes "00E0" and the program counter moves on. */
  lemma ClearScreenFetch(m: Machine)
    requires 0 <= m.pc && m.pc + 1 < |m.memory|
    requires m.memory[m.pc] == 0x00 && m.memory[m.pc + 1] == 0xE0
    ensures Fetch(m, None) == Raised(TypeError, m.(currentOpcode := Int(0xE0)))
    ensures FetchWord(m) == Returned(m.(pc := m.pc + 2, currentOpcode := Str("00E0")))
  {
    ClearScreenSpelled();
    var fetched := m.(currentOpcode := Str("00E0"));
    assert FetchWord(m) == DecodeExecute(fetched, fetched.currentOpcode);
  }

  /** Clear-screen's byte-swapped twin (bytes E0 00) also becomes the
      integer 0xE0 as written and raises TypeError, so the two cannot be told
      apart; corrected, it returns with the program counter advanced and an
      opcode other than "00E0". */
  lemma SwappedClearScreenFetch(m: Machine)
    requires 0 <= m.pc && m.pc + 1 < |m.memory|
    requires m.memory[m.pc] == 0xE0 && m.memory[m.pc + 1] == 0x00
    ensures Fetch(m, None) == Raised(TypeError, m.(currentOpcode := Int(0xE0)))
    ensures FetchWord(m).Returned? && FetchWord(m).state.pc == m.pc + 2
    ensures FetchWord(m).state.currentOpcode != Str("00E0")
  {
  }

  /** The word 0x00E0 is written "00E0". */
  lemma ClearScreenSpelled()
    ensures Hex4(Word(0x00, 0xE0)) == "00E0"
  {
  }
}
