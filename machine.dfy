/** The global register banks of the interpreter as an object whose
    methods update them in place, each proved to do what the function of
    the same name in `Semantics` says of the state as a value. */
module RegisterFile {
  import opened Base
  import opened CNumeric
  import opened Registers
  import opened Tokenizer
  import opened Semantics
  import opened Statements

  /** `iregisters`, `sregisters` (`None` is a NULL slot) and the text
      printed so far. */
  class Machine {
    var ints: array<int32>
    var strs: array<Option<string>>
    var out: string

    ghost predicate Valid()
      reads this
    {
      ints.Length == MaxRegisters && strs.Length == MaxRegisters
    }

    /** The state the banks and the output stand for. */
    ghost function Current(): (st: State)
      reads this, ints, strs
      ensures Valid() ==> WellFormed(st)
    {
      State(ints[..], strs[..], out)
    }

    /** The zero-initialised globals. */
    constructor ()
      ensures Valid() && Current() == Initial()
      ensures fresh(ints) && fresh(strs)
    {
      ints := new int32[MaxRegisters](_ => 0);
      strs := new Option<string>[MaxRegisters](_ => None);
      out := "";
      new;
      assert ints[..] == Initial().ints;
      assert strs[..] == Initial().strs;
    }

    /** `mov`. */
    method Mov(tag: Tag, reg: nat, data: Option<string>) returns (e: Option<Error>)
      requires Valid() && reg < MaxRegisters
      modifies ints, strs
      ensures Valid()
      ensures Completed(e, Current()) == Semantics.Mov(old(Current()), tag, reg, data)
      ensures e.Some? ==> Current() == old(Current())
    {
      if data.None? {
        return Some(Fault(NullArgument));
      }
      match tag {
        case I =>
          var n := Atoi(data.value);
          if !InInt32(n) {
            return Some(Fault(IntOverflow));
          }
          ints[reg] := n as int32;
        case F =>
        case S =>
          strs[reg] := data;
      }
      e := None;
    }

    /** `prnt`. */
    method Prnt(tag: Tag, reg: nat, newline: bool) returns (e: Option<Error>)
      requires Valid() && reg < MaxRegisters
      modifies this`out
      ensures Valid()
      ensures Completed(e, Current()) == Semantics.Prnt(old(Current()), tag, reg, newline)
      ensures e.Some? ==> Current() == old(Current())
    {
      var text;
      match tag {
        case I =>
          text := IntToString(ints[reg] as int);
        case F =>
          return Some(Fault(FloatBank));
        case S =>
          if strs[reg].None? {
            return Some(Fault(UnsetString));
          }
          text := strs[reg].value;
      }
      out := out + text + (if newline then "\n" else "");
      e := None;
    }

    /** `iarithm`. */
    method IArithm(dst: nat, src: int, op: Opcode) returns (e: Option<Error>)
      requires Valid() && dst < MaxRegisters && -1 <= src < MaxRegisters
      modifies ints
      ensures Valid()
      ensures Completed(e, Current()) == Semantics.IArithm(old(Current()), dst, src, op)
      ensures e.Some? ==> Current() == old(Current())
    {
      if !IsArithmetic(op) {
        return None;
      }
      if src < 0 {
        return Some(Fault(RegisterOutOfBounds));
      }
      var a, b := ints[dst] as int, ints[src] as int;
      if op == Div && b == 0 {
        return Some(DivZero);
      }
      var n := Apply(op, a, b);
      if !InInt32(n) {
        return Some(Fault(IntOverflow));
      }
      ints[dst] := n as int32;
      e := None;
    }

    /** `arithm`. */
    method Arithm(tag: Tag, dst: nat, src: int, op: Opcode) returns (e: Option<Error>)
      requires Valid() && dst < MaxRegisters && -1 <= src < MaxRegisters
      modifies ints
      ensures Valid()
      ensures Completed(e, Current()) == Semantics.Arithm(old(Current()), tag, dst, src, op)
      ensures e.Some? ==> Current() == old(Current())
    {
      match tag
      case I =>
        e := IArithm(dst, src, op);
      case F =>
        if IsArithmetic(op) && src < 0 {
          e := Some(Fault(RegisterOutOfBounds));
        } else if op == Div {
          e := Some(Fault(FloatBank));
        } else {
          e := None;
        }
      case S =>
        e := None;
    }

    /** `incr`. */
    method Incr(tag: Tag, reg: nat, sign: int) returns (e: Option<Error>)
      requires Valid() && reg < MaxRegisters
      modifies ints
      ensures Valid()
      ensures Completed(e, Current()) == Semantics.Incr(old(Current()), tag, reg, sign)
      ensures e.Some? ==> Current() == old(Current())
    {
      if tag == I {
        var n := ints[reg] as int + sign;
        if !InInt32(n) {
          return Some(Fault(IntOverflow));
        }
        ints[reg] := n as int32;
      }
      e := None;
    }

    /** `clear`. */
    method Clear(tag: Tag, reg: nat)
      requires Valid() && reg < MaxRegisters
      modifies ints, strs
      ensures Valid()
      ensures Current() == Semantics.Clear(old(Current()), tag, reg)
    {
      match tag
      case I =>
        ints[reg] := 0;
      case F =>
      case S =>
        strs[reg] := None;
    }

    /** `parse_statement`. */
    method ParseStatement(stmt: Statement) returns (e: Option<Error>)
      requires Valid()
      modifies ints, strs, this`out
      ensures Valid()
      ensures Completed(e, Current()) == Semantics.ParseStatement(old(Current()), stmt)
      ensures e.Some? ==> Current() == old(Current())
    {
      if |stmt.args| == 0 {
        return Some(Fault(NullArgument));
      }
      var tag := GetRegister(stmt.args[0]);
      if tag.None? {
        return Some(InvalidRegisterType);
      }
      var reg := GetRegisterIndex(stmt.args[0]);
      if reg.Err? {
        return Some(reg.error);
      }
      if reg.value == -1 {
        return Some(InvalidRegisterNumber);
      }
      e := Dispatch(stmt, tag.value, reg.value);
    }

    /** The `switch` of `parse_statement`. */
    method Dispatch(stmt: Statement, tag: Tag, reg: nat) returns (e: Option<Error>)
      requires Valid() && reg < MaxRegisters
      modifies ints, strs, this`out
      ensures Valid()
      ensures Completed(e, Current()) == Semantics.Dispatch(old(Current()), stmt, tag, reg)
      ensures e.Some? ==> Current() == old(Current())
    {
      match stmt.opcode
      case Mov =>
        e := Mov(tag, reg, Arg(stmt, 1));
      case Prnt =>
        e := Prnt(tag, reg, false);
      case Prntl =>
        e := Prnt(tag, reg, true);
      case Incr =>
        e := Incr(tag, reg, 1);
      case Decr =>
        e := Incr(tag, reg, -1);
      case Clr =>
        Clear(tag, reg);
        e := None;
      case _ =>
        if |stmt.args| < 2 {
          e := Some(Fault(NullArgument));
        } else if stmt.args[1] == [] {
          e := Some(Fault(ReadPastEnd));
        } else {
          var src := GetRegisterIndex(stmt.args[1]);
          if src.Err? {
            e := Some(src.error);
          } else {
            e := Arithm(tag, reg, src.value, stmt.opcode);
          }
        }
    }

    /** `parse_statements`: the loop over the nodes of a list, which stops
        at the first statement that reports an error. */
    method ParseStatements(sl: StatementList) returns (e: Option<Error>)
      requires Valid()
      modifies ints, strs, this`out
      ensures Valid()
      ensures Run(old(Current()), Elements(sl)) == Outcome(Current(), e)
    {
      var tmp := sl;
      while tmp.Node?
        invariant Valid()
        invariant Run(old(Current()), Elements(sl)) == Run(Current(), Elements(tmp))
        decreases tmp
      {
        assert Elements(tmp)[0] == tmp.s && Elements(tmp)[1..] == Elements(tmp.next);
        e := ParseStatement(tmp.s);
        if e.Some? {
          return;
        }
        tmp := tmp.next;
      }
      e := None;
    }
  }
}
