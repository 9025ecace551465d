/** What statements do, stated on statements whose first argument is a
    register reference such as `i12`, and what a run of statements does. */
module SemanticsProperties {
  import opened Base
  import opened CNumeric
  import opened Registers
  import opened Tokenizer
  import opened Semantics

  /** The reference `i<k>`, `f<k>` or `s<k>` in its canonical spelling. */
  function Ref(t: Tag, k: nat): (s: string)
    ensures s != [] && s[0] == TagChar(t) && s[1..] == Decimal(k)
  {
    [TagChar(t)] + Decimal(k)
  }

  /** A well-formed first argument resolves, and the statement is
      dispatched on its opcode. */
  lemma Resolved(st: State, stmt: Statement, t: Tag, k: nat)
    requires WellFormed(st) && k < MaxRegisters
    requires |stmt.args| > 0 && stmt.args[0] == Ref(t, k)
    ensures ParseStatement(st, stmt) == Dispatch(st, stmt, t, k)
  {
    ResolveReference(t, k);
    Resolves(st, stmt, t, k);
  }

  /** A first argument that names bank `t` and index `k` dispatches. */
  lemma Resolves(st: State, stmt: Statement, t: Tag, k: nat)
    requires WellFormed(st) && k < MaxRegisters && |stmt.args| > 0 && stmt.args[0] != []
    requires GetRegister(stmt.args[0]) == Some(t) && GetRegisterIndex(stmt.args[0]) == Ok(k)
    ensures ParseStatement(st, stmt) == Dispatch(st, stmt, t, k)
  {
  }

  /** An arithmetic statement with a second argument goes to `arithm` with
      that argument's number, once `atoi` has read an `int` from it. */
  lemma ArithmeticDispatch(st: State, stmt: Statement, t: Tag, k: nat)
    requires WellFormed(st) && k < MaxRegisters
    requires IsArithmetic(stmt.opcode) && |stmt.args| >= 2 && stmt.args[1] != []
    ensures var src := GetRegisterIndex(stmt.args[1]);
            Dispatch(st, stmt, t, k) == if src.Err? then Err(src.error) else Arithm(st, t, k, src.value, stmt.opcode)
  {
  }

  /** The type letter is checked first: a first argument that does not
      start with `i`, `f` or `s` is refused whatever its number and the
      opcode. */
  lemma UnknownBank(st: State, stmt: Statement)
    requires WellFormed(st) && |stmt.args| > 0
    requires stmt.args[0] == [] || !IsValidRegister(stmt.args[0][0])
    ensures ParseStatement(st, stmt) == Err(InvalidRegisterType)
  {
  }

  /** Then the number: a valid letter with an `int` outside [0, 256) is
      refused, whatever the opcode. */
  lemma NumberOutOfRange(st: State, stmt: Statement, t: Tag, k: int)
    requires WellFormed(st) && InInt32(k) && (k < 0 || k >= MaxRegisters)
    requires |stmt.args| > 0 && stmt.args[0] == [TagChar(t)] + IntToString(k)
    ensures ParseStatement(st, stmt) == Err(InvalidRegisterNumber)
  {
    OutOfRangeIndex(t, k);
    RejectNumber(st, stmt, t);
  }

  /** Any spelling of the number: a first argument whose letter names bank
      `t` and whose suffix `atoi` reads as k in [0, 256) (`i7`, `i007`,
      `i+7`, `i 7`) dispatches on register k of `t`. */
  lemma ResolvedSuffix(st: State, stmt: Statement, t: Tag)
    requires WellFormed(st) && |stmt.args| > 0 && stmt.args[0] != [] && stmt.args[0][0] == TagChar(t)
    requires 0 <= Atoi(stmt.args[0][1..]) < MaxRegisters
    ensures ParseStatement(st, stmt) == Dispatch(st, stmt, t, Atoi(stmt.args[0][1..]))
  {
    assert GetRegister(stmt.args[0]) == Some(t);
  }

  /** And whatever its spelling, an `int` suffix outside [0, 256) is
      refused. */
  lemma SuffixOutOfRange(st: State, stmt: Statement, t: Tag)
    requires WellFormed(st) && |stmt.args| > 0 && stmt.args[0] != [] && stmt.args[0][0] == TagChar(t)
    requires InInt32(Atoi(stmt.args[0][1..])) && !(0 <= Atoi(stmt.args[0][1..]) < MaxRegisters)
    ensures ParseStatement(st, stmt) == Err(InvalidRegisterNumber)
  {
    RejectNumber(st, stmt, t);
  }

  /** A first argument that names a bank but no index is refused. */
  lemma RejectNumber(st: State, stmt: Statement, t: Tag)
    requires WellFormed(st) && |stmt.args| > 0 && stmt.args[0] != [] && stmt.args[0][0] == TagChar(t)
    requires GetRegisterIndex(stmt.args[0]) == Ok(-1)
    ensures ParseStatement(st, stmt) == Err(InvalidRegisterNumber)
  {
    assert GetRegister(stmt.args[0]) == Some(t);
  }

  /** A valid letter with a number that is not an `int` makes `atoi`
      overflow, before the range check; the C behaviour is undefined. */
  lemma NumberOverflows(st: State, stmt: Statement, t: Tag, k: int)
    requires WellFormed(st) && !InInt32(k)
    requires |stmt.args| > 0 && stmt.args[0] == [TagChar(t)] + IntToString(k)
    ensures ParseStatement(st, stmt) == Err(Fault(IntOverflow))
  {
    OverflowingIndex(t, k);
    assert GetRegister(stmt.args[0]) == Some(t);
  }

  /** `mov` into an integer register stores `atoi` of the second argument,
      and nothing else changes. */
  lemma MovInt(st: State, stmt: Statement, k: nat)
    requires WellFormed(st) && k < MaxRegisters
    requires stmt.opcode == Mov && |stmt.args| >= 2 && stmt.args[0] == Ref(I, k)
    ensures var n := Atoi(stmt.args[1]);
            ParseStatement(st, stmt)
            == if InInt32(n) then Ok(st.(ints := st.ints[k := n as int32])) else Err(Fault(IntOverflow))
  {
    Resolved(st, stmt, I, k);
  }

  /** Round trip: `mov` of the decimal text of a value stores that value. */
  lemma MovDecimal(st: State, stmt: Statement, k: nat, v: int32)
    requires WellFormed(st) && k < MaxRegisters
    requires stmt.opcode == Mov && |stmt.args| >= 2 && stmt.args[0] == Ref(I, k)
    requires stmt.args[1] == IntToString(v as int)
    ensures ParseStatement(st, stmt) == Ok(st.(ints := st.ints[k := v]))
  {
    MovInt(st, stmt, k);
    AtoiIntToString(v as int);
  }

  /** There is no register-to-register `mov`: a register name as the
      source is text that `atoi` reads as 0. */
  lemma MovRegisterName(st: State, stmt: Statement, k: nat, t: Tag, j: nat)
    requires WellFormed(st) && k < MaxRegisters
    requires stmt.opcode == Mov && |stmt.args| >= 2 && stmt.args[0] == Ref(I, k)
    requires stmt.args[1] == Ref(t, j)
    ensures ParseStatement(st, stmt) == Ok(st.(ints := st.ints[k := 0]))
  {
    MovInt(st, stmt, k);
    AtoiRef(t, j);
  }

  /** `atoi` of a register reference is 0: its first character is a
      letter. */
  lemma AtoiRef(t: Tag, j: nat)
    ensures Atoi(Ref(t, j)) == 0
  {
    var s := Ref(t, j);
    assert !IsSpace(s[0]) && !IsDigit(s[0]) && s[0] != '-' && s[0] != '+';
    assert SkipSpace(s) == s;
    AtoiNonNumeric(s);
  }

  /** `mov` into a string register stores a copy of the second argument;
      with no second argument the C code reads a NULL pointer. */
  lemma MovString(st: State, stmt: Statement, k: nat)
    requires WellFormed(st) && k < MaxRegisters
    requires stmt.opcode == Mov && |stmt.args| >= 1 && stmt.args[0] == Ref(S, k)
    ensures ParseStatement(st, stmt)
         == if |stmt.args| >= 2 then Ok(st.(strs := st.strs[k := Some(stmt.args[1])]))
            else Err(Fault(NullArgument))
  {
    Resolved(st, stmt, S, k);
  }

  /** `clr` zeroes an integer register and unsets a string register. */
  lemma ClearRegister(st: State, stmt: Statement, t: Tag, k: nat)
    requires WellFormed(st) && k < MaxRegisters
    requires stmt.opcode == Clr && |stmt.args| >= 1 && stmt.args[0] == Ref(t, k)
    ensures t == I ==> ParseStatement(st, stmt) == Ok(st.(ints := st.ints[k := 0]))
    ensures t == S ==> ParseStatement(st, stmt) == Ok(st.(strs := st.strs[k := None]))
  {
    Resolved(st, stmt, t, k);
  }

  /** `prnt` appends the decimal text of an integer register, or the text
      of a set string register; `prntl` adds a newline. Nothing else
      changes. */
  lemma PrintRegister(st: State, stmt: Statement, t: Tag, k: nat)
    requires WellFormed(st) && k < MaxRegisters
    requires (stmt.opcode == Prnt || stmt.opcode == Prntl) && |stmt.args| >= 1 && stmt.args[0] == Ref(t, k)
    ensures var nl := if stmt.opcode == Prntl then "\n" else "";
            && (t == I ==> ParseStatement(st, stmt) == Ok(st.(out := st.out + IntToString(st.ints[k] as int) + nl)))
            && (t == S && st.strs[k].Some? ==> ParseStatement(st, stmt) == Ok(st.(out := st.out + st.strs[k].value + nl)))
            && (t == S && st.strs[k].None? ==> ParseStatement(st, stmt) == Err(Fault(UnsetString)))
  {
    Resolved(st, stmt, t, k);
  }

  /** A string target makes arithmetic and `incr`/`decr` do nothing and
      report no error. Arithmetic still resolves its second argument's
      number, which needs one to be there and faults where `atoi` of it
      overflows. */
  lemma StringTargetUnchanged(st: State, stmt: Statement, k: nat)
    requires WellFormed(st) && k < MaxRegisters
    requires |stmt.args| >= 1 && stmt.args[0] == Ref(S, k)
    requires stmt.opcode == Incr || stmt.opcode == Decr
             || (IsArithmetic(stmt.opcode) && |stmt.args| >= 2 && stmt.args[1] != [])
    ensures ParseStatement(st, stmt)
         == if IsArithmetic(stmt.opcode) && !InInt32(Atoi(stmt.args[1][1..])) then Err(Fault(IntOverflow))
            else Ok(st)
  {
    Resolved(st, stmt, S, k);
    if IsArithmetic(stmt.opcode) {
      ArithmeticDispatch(st, stmt, S, k);
    }
  }

  /** `incr` and `decr` move an integer register by exactly one, where the
      result is still an `int`. */
  lemma IncrDecrByOne(st: State, stmt: Statement, k: nat)
    requires WellFormed(st) && k < MaxRegisters
    requires (stmt.opcode == Incr || stmt.opcode == Decr) && |stmt.args| >= 1 && stmt.args[0] == Ref(I, k)
    ensures var v := st.ints[k] as int + (if stmt.opcode == Incr then 1 else -1);
            ParseStatement(st, stmt)
            == if InInt32(v) then Ok(st.(ints := st.ints[k := v as int32])) else Err(Fault(IntOverflow))
  {
    Resolved(st, stmt, I, k);
  }

  /** The number of an arithmetic source `<c><j>`, whatever its letter. */
  lemma SourceIndex(s: string, j: nat)
    requires j < MaxRegisters && s != [] && s[1..] == Decimal(j)
    ensures GetRegisterIndex(s) == Ok(j)
  {
    AtoiDecimal(j);
  }

  /** Integer arithmetic `op i<k> <c><j>`: the source's letter is not
      looked at, only its number; division by a zero register is refused
      and changes nothing; otherwise the destination takes the C result
      when it is an `int`. */
  lemma IntArithmetic(st: State, stmt: Statement, k: nat, j: nat)
    requires WellFormed(st) && k < MaxRegisters && j < MaxRegisters
    requires IsArithmetic(stmt.opcode) && |stmt.args| >= 2 && stmt.args[0] == Ref(I, k)
    requires stmt.args[1] != [] && stmt.args[1][1..] == Decimal(j)
    ensures var a, b := st.ints[k] as int, st.ints[j] as int;
            ParseStatement(st, stmt)
            == if stmt.opcode == Div && b == 0 then Err(DivZero)
               else if InInt32(Apply(stmt.opcode, a, b)) then Ok(st.(ints := st.ints[k := Apply(stmt.opcode, a, b) as int32]))
               else Err(Fault(IntOverflow))
  {
    Resolved(st, stmt, I, k);
    ArithmeticDispatch(st, stmt, I, k);
    SourceIndex(stmt.args[1], j);
  }

  /** `div` truncates toward zero; its one overflow is `INT_MIN / -1`. */
  lemma Division(st: State, stmt: Statement, k: nat, j: nat)
    requires WellFormed(st) && k < MaxRegisters && j < MaxRegisters
    requires stmt.opcode == Div && |stmt.args| >= 2 && stmt.args[0] == Ref(I, k)
    requires stmt.args[1] != [] && stmt.args[1][1..] == Decimal(j)
    requires st.ints[j] != 0
    ensures var a, b := st.ints[k] as int, st.ints[j] as int;
            var r := ParseStatement(st, stmt);
            && (r.Ok? <==> !(a == -0x8000_0000 && b == -1))
            && (r.Ok? ==> r.value == st.(ints := st.ints[k := r.value.ints[k]])
                          && r.value.ints[k] as int == CDiv(a, b)
                          && (a >= 0 ==> 0 <= a - CDiv(a, b) * b < Abs(b))
                          && (a < 0 ==> -Abs(b) < a - CDiv(a, b) * b <= 0))
  {
    IntArithmetic(st, stmt, k, j);
    var a, b := st.ints[k] as int, st.ints[j] as int;
    CDivInRange(a, b);
    CDivTruncates(a, b);
  }

  /** The source of an arithmetic statement is resolved without the range
      check: an out-of-range number makes `iarithm` read
      `iregisters[-1]`. */
  lemma SourceOutOfRange(st: State, stmt: Statement, k: nat, j: int)
    requires WellFormed(st) && k < MaxRegisters && InInt32(j) && (j < 0 || j >= MaxRegisters)
    requires IsArithmetic(stmt.opcode) && |stmt.args| >= 2 && stmt.args[0] == Ref(I, k)
    requires stmt.args[1] == ['i'] + IntToString(j)
    ensures ParseStatement(st, stmt) == Err(Fault(RegisterOutOfBounds))
  {
    Resolved(st, stmt, I, k);
    ArithmeticDispatch(st, stmt, I, k);
    OutOfRangeIndex(I, j);
  }

  /** An arithmetic source whose number is not an `int` makes `atoi`
      overflow. */
  lemma SourceOverflows(st: State, stmt: Statement, k: nat, j: int)
    requires WellFormed(st) && k < MaxRegisters && !InInt32(j)
    requires IsArithmetic(stmt.opcode) && |stmt.args| >= 2 && stmt.args[0] == Ref(I, k)
    requires stmt.args[1] == ['i'] + IntToString(j)
    ensures ParseStatement(st, stmt) == Err(Fault(IntOverflow))
  {
    Resolved(st, stmt, I, k);
    ArithmeticDispatch(st, stmt, I, k);
    OverflowingIndex(I, j);
  }

  /** Replacing the letter of an arithmetic source changes nothing. */
  lemma SourceLetterIgnored(st: State, stmt: Statement, c: char)
    requires WellFormed(st) && IsArithmetic(stmt.opcode) && |stmt.args| >= 2 && stmt.args[1] != []
    ensures ParseStatement(st, stmt)
         == ParseStatement(st, stmt.(args := stmt.args[1 := [c] + stmt.args[1][1..]]))
  {
    var stmt' := stmt.(args := stmt.args[1 := [c] + stmt.args[1][1..]]);
    assert stmt'.args[0] == stmt.args[0];
    assert stmt'.args[1][1..] == stmt.args[1][1..];
    var t := GetRegister(stmt.args[0]);
    if t.Some? && GetRegisterIndex(stmt.args[0]).Ok? && GetRegisterIndex(stmt.args[0]).value != -1 {
      var k := GetRegisterIndex(stmt.args[0]).value;
      Resolves(st, stmt, t.value, k);
      Resolves(st, stmt', t.value, k);
      ArithmeticDispatch(st, stmt, t.value, k);
      ArithmeticDispatch(st, stmt', t.value, k);
    }
  }

  /** Running two lists of statements one after the other is running their
      concatenation. */
  lemma {:induction false} RunAppend(st: State, a: seq<Statement>, b: seq<Statement>)
    requires WellFormed(st)
    ensures var o := Run(st, a);
            Run(st, a + b) == if o.error.Some? then o else Run(o.state, b)
    decreases |a|
  {
    if a == [] {
      assert a + b == b;
    } else {
      assert (a + b)[0] == a[0] && (a + b)[1..] == a[1..] + b;
      match ParseStatement(st, a[0])
      case Err(e) =>
      case Ok(st') => RunAppend(st', a[1..], b);
    }
  }

  /** Execution stops at the first failing statement: nothing after it
      runs, and the state is the one it failed in. */
  lemma RunStops(st: State, a: seq<Statement>, s: Statement, b: seq<Statement>)
    requires WellFormed(st) && Run(st, a).error.None?
    requires ParseStatement(Run(st, a).state, s).Err?
    ensures Run(st, a + [s] + b)
         == Outcome(Run(st, a).state, Some(ParseStatement(Run(st, a).state, s).error))
  {
    RunAppend(st, a, [s] + b);
    assert a + [s] + b == a + ([s] + b);
  }

  /** A run that reports no error ran every statement. */
  lemma {:induction false} RunCompletes(st: State, stmts: seq<Statement>, k: nat)
    requires WellFormed(st) && Run(st, stmts).error.None? && k <= |stmts|
    ensures Run(st, stmts[..k]).error.None?
    ensures Run(Run(st, stmts[..k]).state, stmts[k..]) == Run(st, stmts)
  {
    var a, b := stmts[..k], stmts[k..];
    assert a + b == stmts;
    RunAppend(st, a, b);
  }
}
