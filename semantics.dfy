/** What each statement does to the register banks and to the output, as
    functions on a value of the machine state. The float bank is not part of
    the state: operations whose whole effect lies in it leave the state as
    it is, and those whose outcome depends on a float value stop with
    `Fault(FloatBank)`. */
module Semantics {
  import opened Base
  import opened CNumeric
  import opened Registers
  import opened Tokenizer

  /** The integer bank `iregisters`, the string bank `sregisters` (`None`
      is a NULL slot) and everything printed so far. */
  datatype State = State(ints: seq<int32>, strs: seq<Option<string>>, out: string)

  predicate WellFormed(st: State) {
    |st.ints| == MaxRegisters && |st.strs| == MaxRegisters
  }

  /** The zero-initialised globals before the first statement. */
  function Initial(): (st: State)
    ensures WellFormed(st) && st.out == []
    ensures forall k | 0 <= k < MaxRegisters :: st.ints[k] == 0 && st.strs[k] == None
  {
    State(seq(MaxRegisters, _ => 0), seq(MaxRegisters, _ => None), "")
  }

  /** Only register `reg` of the two banks may differ between `st` and
      `st'`. */
  predicate OnlyRegister(st: State, st': State, reg: nat)
    requires WellFormed(st) && reg < MaxRegisters
  {
    WellFormed(st')
    && (forall k | 0 <= k < MaxRegisters && k != reg :: st'.ints[k] == st.ints[k])
    && (forall k | 0 <= k < MaxRegisters && k != reg :: st'.strs[k] == st.strs[k])
  }

  /** A C `int` result: the value, or `Fault(IntOverflow)` where the C
      behaviour is undefined. */
  function ToInt32(x: int): (r: Result<int32>)
    ensures r.Ok? <==> InInt32(x)
    ensures r.Ok? ==> r.value as int == x
    ensures r.Err? ==> r.error == Fault(IntOverflow)
  {
    if InInt32(x) then Ok(x as int32) else Err(Fault(IntOverflow))
  }

  /** `mov`: an integer register takes `atoi(data)`, a string register a
      copy of `data`; the float bank is not modelled. `data` is `args[1]`,
      NULL when the statement has a single argument. */
  function Mov(st: State, tag: Tag, reg: nat, data: Option<string>): (r: Result<State>)
    requires WellFormed(st) && reg < MaxRegisters
    ensures r.Ok? ==> OnlyRegister(st, r.value, reg) && r.value.out == st.out
  {
    if data.None? then Err(Fault(NullArgument))
    else
      match tag
      case I =>
        (match ToInt32(Atoi(data.value))
         case Err(e) => Err(e)
         case Ok(n) => Ok(st.(ints := st.ints[reg := n])))
      case F => Ok(st)
      case S => Ok(st.(strs := st.strs[reg := data]))
  }

  /** The text `printf` writes for a register: `%d` of an integer, `%s` of
      a string. */
  function Shown(st: State, tag: Tag, reg: nat): (r: Result<string>)
    requires WellFormed(st) && reg < MaxRegisters
    ensures r.Ok? <==> tag == I || (tag == S && st.strs[reg].Some?)
    ensures r.Err? ==> r.error == if tag == F then Fault(FloatBank) else Fault(UnsetString)
    ensures r.Ok? && tag == S ==> r.value == st.strs[reg].value
  {
    match tag
    case I => Ok(IntToString(st.ints[reg] as int))
    case F => Err(Fault(FloatBank))
    case S => if st.strs[reg].None? then Err(Fault(UnsetString)) else Ok(st.strs[reg].value)
  }

  /** `prnt`: the register's text, then a newline for `prntl`. */
  function Prnt(st: State, tag: Tag, reg: nat, newline: bool): (r: Result<State>)
    requires WellFormed(st) && reg < MaxRegisters
    ensures r.Ok? ==> r.value.ints == st.ints && r.value.strs == st.strs
    ensures r.Ok? ==> |st.out| <= |r.value.out| && r.value.out[..|st.out|] == st.out
  {
    match Shown(st, tag, reg)
    case Err(e) => Err(e)
    case Ok(text) => Ok(st.(out := st.out + text + (if newline then "\n" else "")))
  }

  predicate IsArithmetic(op: Opcode) {
    op == Add || op == Sub || op == Mul || op == Div
  }

  /** The C `int` operation of an arithmetic opcode, before the range
      check. */
  function Apply(op: Opcode, a: int, b: int): int
    requires IsArithmetic(op) && (op == Div ==> b != 0)
  {
    if op == Add then a + b
    else if op == Sub then a - b
    else if op == Mul then a * b
    else CDiv(a, b)
  }

  /** `iarithm`: `iregisters[dst] op= iregisters[src]`. The source index is
      the unchecked result of `get_register_index`, so it may be -1. */
  function IArithm(st: State, dst: nat, src: int, op: Opcode): (r: Result<State>)
    requires WellFormed(st) && dst < MaxRegisters && -1 <= src < MaxRegisters
    ensures r.Ok? ==> OnlyRegister(st, r.value, dst) && r.value.strs == st.strs && r.value.out == st.out
  {
    if !IsArithmetic(op) then Ok(st)
    else if src < 0 then Err(Fault(RegisterOutOfBounds))
    else
      var a, b := st.ints[dst] as int, st.ints[src] as int;
      if op == Div && b == 0 then Err(DivZero)
      else
        match ToInt32(Apply(op, a, b))
        case Err(e) => Err(e)
        case Ok(n) => Ok(st.(ints := st.ints[dst := n]))
  }

  /** `arithm`: integer targets go to `iarithm`; a float target reads
      `fregisters[src]` and, for `div`, tests it for zero; a string target
      is left alone. */
  function Arithm(st: State, tag: Tag, dst: nat, src: int, op: Opcode): (r: Result<State>)
    requires WellFormed(st) && dst < MaxRegisters && -1 <= src < MaxRegisters
    ensures r.Ok? ==> OnlyRegister(st, r.value, dst) && r.value.out == st.out
  {
    match tag
    case I => IArithm(st, dst, src, op)
    case F =>
      if IsArithmetic(op) && src < 0 then Err(Fault(RegisterOutOfBounds))
      else if op == Div then Err(Fault(FloatBank))
      else Ok(st)
    case S => Ok(st)
  }

  /** `incr`: an integer register moves by `sign`. */
  function Incr(st: State, tag: Tag, reg: nat, sign: int): (r: Result<State>)
    requires WellFormed(st) && reg < MaxRegisters
    ensures r.Ok? ==> OnlyRegister(st, r.value, reg) && r.value.strs == st.strs && r.value.out == st.out
  {
    match tag
    case I =>
      (match ToInt32(st.ints[reg] as int + sign)
       case Err(e) => Err(e)
       case Ok(n) => Ok(st.(ints := st.ints[reg := n])))
    case F => Ok(st)
    case S => Ok(st)
  }

  /** `clear`: an integer register becomes 0, a string register NULL. */
  function Clear(st: State, tag: Tag, reg: nat): (r: State)
    requires WellFormed(st) && reg < MaxRegisters
    ensures OnlyRegister(st, r, reg) && r.out == st.out
    ensures tag == I ==> r.ints[reg] == 0 && r.strs == st.strs
    ensures tag == S ==> r.strs[reg] == None && r.ints == st.ints
    ensures tag == F ==> r == st
  {
    match tag
    case I => st.(ints := st.ints[reg := 0])
    case F => st
    case S => st.(strs := st.strs[reg := None])
  }

  /** Argument slot `k`: `None` is the NULL of a slot past `nargs`. */
  function Arg(stmt: Statement, k: nat): (r: Option<string>)
    ensures r.Some? <==> k < |stmt.args|
    ensures r.Some? ==> r.value == stmt.args[k]
  {
    if k < |stmt.args| then Some(stmt.args[k]) else None
  }

  /** `parse_statement`: resolve `args[0]`, checking its type letter before
      its number, then dispatch on the opcode. */
  function ParseStatement(st: State, stmt: Statement): (r: Result<State>)
    requires WellFormed(st)
    ensures r.Ok? ==> WellFormed(r.value)
    ensures r.Ok? ==> |st.out| <= |r.value.out| && r.value.out[..|st.out|] == st.out
    ensures r.Ok? ==> |stmt.args| > 0 && stmt.args[0] != [] && GetRegisterIndex(stmt.args[0]).Ok?
                      && 0 <= GetRegisterIndex(stmt.args[0]).value
                      && OnlyRegister(st, r.value, GetRegisterIndex(stmt.args[0]).value)
  {
    if |stmt.args| == 0 then Err(Fault(NullArgument))
    else
      match GetRegister(stmt.args[0])
      case None => Err(InvalidRegisterType)
      case Some(tag) =>
        match GetRegisterIndex(stmt.args[0])
        case Err(e) => Err(e)
        case Ok(reg) =>
          if reg == -1 then Err(InvalidRegisterNumber)
          else Dispatch(st, stmt, tag, reg)
  }

  /** The `switch` of `parse_statement`, once `args[0]` has resolved to
      register `reg` of bank `tag`. An arithmetic statement resolves only
      the number of `args[1]`. */
  function Dispatch(st: State, stmt: Statement, tag: Tag, reg: nat): (r: Result<State>)
    requires WellFormed(st) && reg < MaxRegisters
    ensures r.Ok? ==> OnlyRegister(st, r.value, reg)
    ensures r.Ok? ==> |st.out| <= |r.value.out| && r.value.out[..|st.out|] == st.out
  {
    match stmt.opcode
    case Mov => Mov(st, tag, reg, Arg(stmt, 1))
    case Prnt => Prnt(st, tag, reg, false)
    case Prntl => Prnt(st, tag, reg, true)
    case Incr => Incr(st, tag, reg, 1)
    case Decr => Incr(st, tag, reg, -1)
    case Clr => Ok(Clear(st, tag, reg))
    case _ =>
      if |stmt.args| < 2 then Err(Fault(NullArgument))
      else if stmt.args[1] == [] then Err(Fault(ReadPastEnd))
      else
        match GetRegisterIndex(stmt.args[1])
        case Err(e) => Err(e)
        case Ok(src) => Arithm(st, tag, reg, src, stmt.opcode)
  }

  /** Where a run of statements ends: the state, and the error that stopped
      it, if any. */
  datatype Outcome = Outcome(state: State, error: Option<Error>)

  /** `parse_statements`: the statements in order, up to the first one that
      fails; the failing statement leaves the state as it was. */
  function Run(st: State, stmts: seq<Statement>): (o: Outcome)
    requires WellFormed(st)
    ensures WellFormed(o.state)
    ensures |st.out| <= |o.state.out| && o.state.out[..|st.out|] == st.out
    decreases |stmts|
  {
    if stmts == [] then Outcome(st, None)
    else
      match ParseStatement(st, stmts[0])
      case Err(e) => Outcome(st, Some(e))
      case Ok(st') => Run(st', stmts[1..])
  }

  /** The outcome of a C operation that reports `e` and leaves `st`. */
  function Completed(e: Option<Error>, st: State): (r: Result<State>)
    ensures r.Ok? <==> e.None?
  {
    if e.None? then Ok(st) else Err(e.value)
  }
}
