/** Register references: a token such as `i12` names the register with type
    tag `i` and index 12. */
module Registers {
  import opened Base
  import opened CNumeric

  /** The three register banks: integer, float and string. */
  datatype Tag = I | F | S

  /** The character that names a bank in a register reference. */
  function TagChar(t: Tag): char {
    match t
    case I => 'i'
    case F => 'f'
    case S => 's'
  }

  /** `is_valid_register`: the characters that name a bank. */
  predicate IsValidRegister(c: char) {
    c == 'i' || c == 'f' || c == 's'
  }

  /** `get_register`: the bank a reference names by its first character. The
      first character of the empty token is its terminator, which names no
      bank. */
  function GetRegister(s: string): (r: Option<Tag>)
    ensures r.Some? <==> s != [] && IsValidRegister(s[0])
    ensures r.Some? ==> TagChar(r.value) == s[0]
  {
    if s == [] then None
    else if s[0] == 'i' then Some(I)
    else if s[0] == 'f' then Some(F)
    else if s[0] == 's' then Some(S)
    else None
  }

  /** `get_register_index`: `atoi` of everything after the tag character, or
      -1 when that lies outside [0, MAX_REGISTERS). The C code reads `s + 1`,
      so it needs at least the tag character. An `atoi` value outside the
      `int` range is undefined behaviour, and a fault here. */
  function GetRegisterIndex(s: string): (r: Result<int>)
    requires s != []
    ensures r.Err? <==> !InInt32(Atoi(s[1..]))
    ensures r.Err? ==> r.error == Fault(IntOverflow)
    ensures r.Ok? ==> -1 <= r.value < MaxRegisters
    ensures r.Ok? ==> (r.value == -1 <==> !(0 <= Atoi(s[1..]) < MaxRegisters))
    ensures r.Ok? && r.value != -1 ==> r.value == Atoi(s[1..])
  {
    var idx := Atoi(s[1..]);
    if !InInt32(idx) then Err(Fault(IntOverflow))
    else if 0 <= idx < MaxRegisters then Ok(idx)
    else Ok(-1)
  }

  /** Every well-formed reference `t<k>` with k in [0, 256) resolves to bank
      `t` and index `k`. */
  lemma ResolveReference(t: Tag, k: nat)
    requires k < MaxRegisters
    ensures GetRegister([TagChar(t)] + Decimal(k)) == Some(t)
    ensures GetRegisterIndex([TagChar(t)] + Decimal(k)) == Ok(k)
  {
    var s := [TagChar(t)] + Decimal(k);
    assert s[1..] == Decimal(k);
    AtoiDecimal(k);
  }

  /** A reference whose number is an `int` outside [0, 256) resolves to
      -1. */
  lemma OutOfRangeIndex(t: Tag, k: int)
    requires InInt32(k) && (k < 0 || k >= MaxRegisters)
    ensures GetRegisterIndex([TagChar(t)] + IntToString(k)) == Ok(-1)
  {
    var s := [TagChar(t)] + IntToString(k);
    assert s[1..] == IntToString(k);
    AtoiIntToString(k);
  }

  /** A reference whose number is not an `int` makes `atoi` overflow. */
  lemma OverflowingIndex(t: Tag, k: int)
    requires !InInt32(k)
    ensures GetRegisterIndex([TagChar(t)] + IntToString(k)) == Err(Fault(IntOverflow))
  {
    var s := [TagChar(t)] + IntToString(k);
    assert s[1..] == IntToString(k);
    AtoiIntToString(k);
  }

  /** `atoi`'s leniency: a reference whose suffix does not start with a
      digit, a sign or white space (`ix`, or the bare `i`) names index 0. */
  lemma NonNumericSuffix(s: string)
    requires s != []
    requires |s| == 1 || !(IsDigit(s[1]) || IsSpace(s[1]) || s[1] == '-' || s[1] == '+')
    ensures GetRegisterIndex(s) == Ok(0)
  {
    AtoiNonNumeric(s[1..]);
  }
}
