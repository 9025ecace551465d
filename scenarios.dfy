/** Whole programs, from the lines of a file to what they print. */
module Scenarios {
  import opened Base
  import opened CNumeric
  import opened Registers
  import opened Tokenizer
  import opened TokenizerProperties
  import opened Semantics
  import opened SemanticsProperties
  import opened Statements
  import opened Interpreter

  lemma DecimalSmall()
    ensures Decimal(0) == "0" && Decimal(1) == "1" && Decimal(42) == "42" && Decimal(43) == "43"
  {
    assert Decimal(4) == "4";
    assert Decimal(42) == Decimal(4) + ['2'];
    assert Decimal(43) == Decimal(4) + ['3'];
  }

  /** A statement of one argument, such as `incr i0`. */
  lemma TokenizeUnary(op: Opcode, t: string)
    requires Token(t)
    ensures Tokenize(OpcodeName(op) + " " + t) == Ok(Statement(op, [t]))
  {
    OpcodeNameRoundTrip(op);
    TokenizePlain(OpcodeName(op), op, [t]);
    assert [t][1..] == [];
    assert Join([t]) == " " + t + "";
    assert " " + t + "" == " " + t;
    assert OpcodeName(op) + (" " + t) == OpcodeName(op) + " " + t;
  }

  lemma ExampleIncr()
    ensures Tokenize("incr i0") == Ok(Statement(Incr, ["i0"]))
  {
    assert Token("i0");
    TokenizeUnary(Incr, "i0");
    assert OpcodeName(Incr) + " " + "i0" == "incr i0";
  }

  lemma ExamplePrntl()
    ensures Tokenize("prntl i0") == Ok(Statement(Prntl, ["i0"]))
  {
    assert Token("i0");
    TokenizeUnary(Prntl, "i0");
    assert OpcodeName(Prntl) + " " + "i0" == "prntl i0";
  }

  /** The statements of the counter program; its blank line gives none. */
  lemma CounterStatements()
    ensures Parse(["mov i0 42", "", "incr i0", "prntl i0"])
         == Ok([Statement(Mov, ["i0", "42"]), Statement(Incr, ["i0"]), Statement(Prntl, ["i0"])])
  {
    ExampleMov();
    ExampleIncr();
    ExamplePrntl();
    var lines := ["mov i0 42", "incr i0", "prntl i0"];
    BlankLineSkipped(["mov i0 42"], "", ["incr i0", "prntl i0"]);
    assert ["mov i0 42"] + [""] + ["incr i0", "prntl i0"] == ["mov i0 42", "", "incr i0", "prntl i0"];
    assert ["mov i0 42"] + ["incr i0", "prntl i0"] == lines;
    assert !IsSpace(lines[0][0]) && !IsSpace(lines[1][0]) && !IsSpace(lines[2][0]);
    ParseEachLine(lines);
    var ss := Parse(lines).value;
    assert |ss| == 3 && ss[0] == Statement(Mov, ["i0", "42"]) && ss[1] == Statement(Incr, ["i0"])
           && ss[2] == Statement(Prntl, ["i0"]);
    assert ss == [Statement(Mov, ["i0", "42"]), Statement(Incr, ["i0"]), Statement(Prntl, ["i0"])];
    assert Parse(lines) == Ok(ss);
    assert Parse(["mov i0 42", "", "incr i0", "prntl i0"]) == Parse(lines);
  }

  /** Its run from the zeroed registers. */
  lemma CounterRun()
    ensures var o := Run(Initial(), [Statement(Mov, ["i0", "42"]), Statement(Incr, ["i0"]), Statement(Prntl, ["i0"])]);
            o.error == None && o.state.out == "43\n" && o.state.ints[0] == 43
  {
    var s1, s2, s3 := Statement(Mov, ["i0", "42"]), Statement(Incr, ["i0"]), Statement(Prntl, ["i0"]);
    var st0 := Initial();
    var st1 := st0.(ints := st0.ints[0 := 42]);
    var st2 := st1.(ints := st1.ints[0 := 43]);
    CounterMov();
    CounterIncr(st1);
    CounterPrint(st2);
    assert [s1, s2, s3][1..] == [s2, s3] && [s2, s3][1..] == [s3] && [s3][1..] == [];
  }

  lemma CounterMov()
    ensures ParseStatement(Initial(), Statement(Mov, ["i0", "42"]))
         == Ok(Initial().(ints := Initial().ints[0 := 42]))
  {
    DecimalSmall();
    assert "i0" == Ref(I, 0);
    MovDecimal(Initial(), Statement(Mov, ["i0", "42"]), 0, 42);
  }

  lemma CounterIncr(st: State)
    requires WellFormed(st) && st.ints[0] == 42
    ensures ParseStatement(st, Statement(Incr, ["i0"])) == Ok(st.(ints := st.ints[0 := 43]))
  {
    DecimalSmall();
    assert "i0" == Ref(I, 0);
    IncrDecrByOne(st, Statement(Incr, ["i0"]), 0);
  }

  lemma CounterPrint(st: State)
    requires WellFormed(st) && st.ints[0] == 43 && st.out == ""
    ensures ParseStatement(st, Statement(Prntl, ["i0"])) == Ok(st.(out := "43\n"))
  {
    DecimalSmall();
    assert "i0" == Ref(I, 0);
    assert IntToString(st.ints[0] as int) == "43";
    PrintRegister(st, Statement(Prntl, ["i0"]), I, 0);
    assert st.out + "43" + "\n" == "43\n";
  }

  /** `mov i0 42`, a blank line, `incr i0` and `prntl i0` print `43` and a
      newline. */
  lemma CounterProgram()
    ensures var r := Execution(["mov i0 42", "", "incr i0", "prntl i0"]);
            r.readError == None && r.outcome.error == None && r.outcome.state.out == "43\n"
  {
    CounterStatements();
    CounterRun();
  }

  /** A statement of two arguments, such as `div i0 i1`. */
  lemma TokenizeBinary(op: Opcode, t: string, u: string)
    requires Token(t) && Token(u)
    ensures Tokenize(OpcodeName(op) + " " + t + " " + u) == Ok(Statement(op, [t, u]))
  {
    OpcodeNameRoundTrip(op);
    TokenizePlain(OpcodeName(op), op, [t, u]);
    assert [t, u][1..] == [u] && [u][1..] == [];
    assert Join([u]) == " " + u + "";
    assert Join([t, u]) == " " + t + Join([u]);
    assert OpcodeName(op) + Join([t, u]) == OpcodeName(op) + " " + t + " " + u;
  }

  /** The statements of the division program. */
  lemma DivisionStatements()
    ensures Parse(["mov i0 1", "div i0 i1", "prntl i0"])
         == Ok([Statement(Mov, ["i0", "1"]), Statement(Div, ["i0", "i1"]), Statement(Prntl, ["i0"])])
  {
    assert Token("i0") && Token("i1") && Token("1");
    TokenizeBinary(Mov, "i0", "1");
    assert OpcodeName(Mov) + " " + "i0" + " " + "1" == "mov i0 1";
    TokenizeBinary(Div, "i0", "i1");
    assert OpcodeName(Div) + " " + "i0" + " " + "i1" == "div i0 i1";
    ExamplePrntl();
    var lines := ["mov i0 1", "div i0 i1", "prntl i0"];
    assert !IsSpace(lines[0][0]) && !IsSpace(lines[1][0]) && !IsSpace(lines[2][0]);
    ParseEachLine(lines);
    var ss := Parse(lines).value;
    assert |ss| == 3 && ss[0] == Statement(Mov, ["i0", "1"]) && ss[1] == Statement(Div, ["i0", "i1"])
           && ss[2] == Statement(Prntl, ["i0"]);
    assert ss == [Statement(Mov, ["i0", "1"]), Statement(Div, ["i0", "i1"]), Statement(Prntl, ["i0"])];
  }

  lemma DivisionByZero(st: State)
    requires WellFormed(st) && st.ints[1] == 0
    ensures ParseStatement(st, Statement(Div, ["i0", "i1"])) == Err(DivZero)
  {
    DecimalSmall();
    assert "i0" == Ref(I, 0);
    assert "i1"[1..] == Decimal(1);
    IntArithmetic(st, Statement(Div, ["i0", "i1"]), 0, 1);
  }

  lemma DivisionMov()
    ensures ParseStatement(Initial(), Statement(Mov, ["i0", "1"]))
         == Ok(Initial().(ints := Initial().ints[0 := 1]))
  {
    DecimalSmall();
    assert "i0" == Ref(I, 0);
    MovDecimal(Initial(), Statement(Mov, ["i0", "1"]), 0, 1);
  }

  /** `mov i0 1`, `div i0 i1` and `prntl i0`: the division by the zero
      register `i1` stops the run, so nothing is printed and `i0` keeps
      its value. */
  lemma DivisionProgram()
    ensures var r := Execution(["mov i0 1", "div i0 i1", "prntl i0"]);
            r.readError == None && r.outcome.error == Some(DivZero)
            && r.outcome.state.out == "" && r.outcome.state.ints[0] == 1
  {
    DivisionStatements();
    var s1, s2, s3 := Statement(Mov, ["i0", "1"]), Statement(Div, ["i0", "i1"]), Statement(Prntl, ["i0"]);
    var st1 := Initial().(ints := Initial().ints[0 := 1]);
    DivisionMov();
    DivisionByZero(st1);
    assert [s1, s2, s3][1..] == [s2, s3];
  }
}
