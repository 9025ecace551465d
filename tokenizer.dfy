/** The line tokenizer (`stmt_make_from_str`): one source line becomes an
    opcode and a list of string arguments.

    The C function is a character loop over `src[0..srcsize]` (the index
    `srcsize` reads the terminating NUL) with three pieces of state besides
    the statement it fills: the `buffer`/`buffer_idx` pair, `reading_opcode`
    and `inside_string`. `Scan` states that loop as a function of the
    characters still to be read; `StmtMakeFromStr` is the loop itself,
    proved to compute `Tokenize`. */
module Tokenizer {
  import opened Base

  /** The ten operations of this version of the language. */
  datatype Opcode = Mov | Prnt | Prntl | Add | Sub | Mul | Div | Incr | Decr | Clr

  /** The spelling of each operation in source text. */
  function OpcodeName(op: Opcode): string {
    match op
    case Mov => "mov"
    case Prnt => "prnt"
    case Prntl => "prntl"
    case Add => "add"
    case Sub => "sub"
    case Mul => "mul"
    case Div => "div"
    case Incr => "incr"
    case Decr => "decr"
    case Clr => "clr"
  }

  /** The opcodes in the order `get_opcode_by_name` tries their spellings. */
  const Opcodes: seq<Opcode> := [Mov, Prnt, Prntl, Add, Sub, Mul, Div, Incr, Decr, Clr]

  /** The first of `ops` spelled `name`. */
  function Lookup(name: string, ops: seq<Opcode>): (r: Option<Opcode>)
    ensures r.Some? ==> OpcodeName(r.value) == name
    ensures r.None? ==> forall k | 0 <= k < |ops| :: OpcodeName(ops[k]) != name
  {
    if ops == [] then None
    else if OpcodeName(ops[0]) == name then Some(ops[0])
    else Lookup(name, ops[1..])
  }

  /** `get_opcode_by_name`: exact, case-sensitive match against the ten
      spellings, tried in turn; `None` stands for the C function's -1. */
  function OpcodeByName(name: string): (r: Option<Opcode>)
    ensures r.Some? ==> OpcodeName(r.value) == name
  {
    Lookup(name, Opcodes)
  }

  /** A parsed line. `|args|` is the C `nargs`; the C slots past `nargs`
      hold NULL. */
  datatype Statement = Statement(opcode: Opcode, args: seq<string>)

  /** The loop's state: `buf` is the text in `buffer[0..buffer_idx)`. */
  datatype Scanner = Scanner(buf: string, readingOpcode: bool, insideString: bool,
                             opcode: Opcode, args: seq<string>)

  /** The state before the first character. The statement the caller hands
      in is zero-initialised, so its opcode is `OPCODE_MOV` (0) until the
      opcode is resolved. */
  const Start := Scanner("", true, false, Mov, [])

  /** The first character still to be read; past the terminator there is
      nothing, and the C code never looks there. */
  function Head(cs: string): char {
    if cs == [] then '\0' else cs[0]
  }

  function Tail(cs: string): string {
    if cs == [] then [] else cs[1..]
  }

  /** What one pass of the loop body leaves: the characters the loop goes
      on with, the `break` out of the loop, or an early return. */
  datatype Tick = Next(rest: string, sc: Scanner) | Done(sc: Scanner) | Fail(error: Error)

  /** One pass of the loop body, with `cs` the characters from the current
      index up to and including the terminating NUL. A space or the
      terminator outside a quotation ends a token: the first resolves the
      opcode, every later one is emitted as an argument, after which the
      index is advanced once more without looking at the skipped-to
      character as a delimiter; when that reaches the terminator
      (`i >= srcsize`, so at most the terminator is left) the function
      returns. */
  function Iterate(cs: string, sc: Scanner): (t: Tick)
    requires cs != []
    ensures t.Next? ==> |t.rest| < |cs|
  {
    var c := cs[0];
    if (c == '\0' || c == ' ') && !sc.insideString then
      if sc.readingOpcode then
        match OpcodeByName(sc.buf)
        case None => Fail(InvalidOperation)
        case Some(op) => Next(cs[1..], sc.(opcode := op, readingOpcode := false, buf := ""))
      else if |sc.args| >= MaxArgs then Fail(Fault(TooManyArgs))
      else
        var emitted := sc.(args := sc.args + [sc.buf], buf := "");
        if |cs| <= 2 then Done(emitted) else Quotes(cs[1..], emitted)
    else Quotes(cs, sc)
  }

  /** The second half of the quote handling: a closing quote, or a copied
      character. */
  function QuotesRest(ds: string, sc: Scanner): (t: Tick)
    ensures t.Next? ==> t.rest == Tail(ds)
  {
    if Head(ds) == '"' && sc.insideString then
      if |sc.args| >= MaxArgs then Fail(Fault(TooManyArgs))
      else Next(Tail(ds), sc.(insideString := false, args := sc.args + [sc.buf], buf := "\""))
    else Next(Tail(ds), sc.(buf := sc.buf + [Head(ds)]))
  }

  /** The rest of the loop body: an opening quote is skipped and switches
      the capture on; a closing quote emits the captured argument and is
      itself copied into the buffer; every other character is copied into
      the buffer. */
  function Quotes(cs: string, sc: Scanner): (t: Tick)
    requires cs != []
    ensures t.Next? ==> |t.rest| < |cs|
  {
    var opens := cs[0] == '"' && !sc.insideString;
    var ds := if opens then cs[1..] else cs;
    var sc1 := if opens then sc.(insideString := true) else sc;
    QuotesRest(ds, sc1)
  }

  /** The loop over the characters `cs`. */
  function Scan(cs: string, sc: Scanner): Result<Statement>
    decreases |cs|, 1
  {
    if cs == [] then Ok(Statement(sc.opcode, sc.args)) else Pass(cs, sc)
  }

  /** One pass of the loop body and the rest of the loop after it. */
  function Pass(cs: string, sc: Scanner): Result<Statement>
    requires cs != []
    decreases |cs|, 0
  {
    match Iterate(cs, sc)
    case Fail(e) => Err(e)
    case Done(sc') => Ok(Statement(sc'.opcode, sc'.args))
    case Next(rest, sc') => Scan(rest, sc')
  }

  /** What `stmt_make_from_str` makes of the line `src`: the loop runs over
      its characters and the terminating NUL. */
  function Tokenize(src: string): Result<Statement> {
    Scan(src + "\0", Start)
  }

  /** The delimiter cases of one pass. */
  predicate AtDelimiter(cs: string, sc: Scanner)
    requires cs != []
  {
    (cs[0] == '\0' || cs[0] == ' ') && !sc.insideString
  }

  lemma IterOpcode(cs: string, sc: Scanner)
    requires cs != [] && AtDelimiter(cs, sc) && sc.readingOpcode
    ensures Iterate(cs, sc)
         == match OpcodeByName(sc.buf)
            case None => Fail(InvalidOperation)
            case Some(op) => Next(cs[1..], sc.(opcode := op, readingOpcode := false, buf := ""))
  {
  }

  lemma IterEmit(cs: string, sc: Scanner)
    requires cs != [] && AtDelimiter(cs, sc) && !sc.readingOpcode
    ensures Iterate(cs, sc)
         == if |sc.args| >= MaxArgs then Fail(Fault(TooManyArgs))
            else if |cs| <= 2 then Done(sc.(args := sc.args + [sc.buf], buf := ""))
            else Quotes(cs[1..], sc.(args := sc.args + [sc.buf], buf := ""))
  {
  }

  lemma IterOther(cs: string, sc: Scanner)
    requires cs != [] && !AtDelimiter(cs, sc)
    ensures Iterate(cs, sc) == Quotes(cs, sc)
  {
  }

  lemma QuotesRestClose(ds: string, sc: Scanner)
    requires Head(ds) == '"' && sc.insideString
    ensures QuotesRest(ds, sc)
         == if |sc.args| >= MaxArgs then Fail(Fault(TooManyArgs))
            else Next(Tail(ds), sc.(insideString := false, args := sc.args + [sc.buf], buf := "\""))
  {
  }

  lemma QuotesRestCopy(ds: string, sc: Scanner)
    requires !(Head(ds) == '"' && sc.insideString)
    ensures QuotesRest(ds, sc) == Next(Tail(ds), sc.(buf := sc.buf + [Head(ds)]))
  {
  }

  /** The characters from index `i` on. */
  lemma Suffix(text: string, i: nat)
    requires i < |text|
    ensures text[i..] != [] && Head(text[i..]) == text[i] && Tail(text[i..]) == text[i + 1..]
    ensures text[i..][1..] == text[i + 1..]
  {
  }

  lemma ScanNext(cs: string, sc: Scanner, rest: string, sc': Scanner)
    requires cs != [] && Iterate(cs, sc) == Next(rest, sc')
    ensures Scan(cs, sc) == Scan(rest, sc')
  {
    assert Scan(cs, sc) == Pass(cs, sc);
  }

  lemma ScanFail(cs: string, sc: Scanner, e: Error)
    requires cs != [] && Iterate(cs, sc) == Fail(e)
    ensures Scan(cs, sc) == Err(e)
  {
    assert Scan(cs, sc) == Pass(cs, sc);
  }

  lemma ScanDone(cs: string, sc: Scanner, sc': Scanner)
    requires cs != [] && Iterate(cs, sc) == Done(sc')
    ensures Scan(cs, sc) == Ok(Statement(sc'.opcode, sc'.args))
  {
    assert Scan(cs, sc) == Pass(cs, sc);
  }

  /** `write_arg`: copy the buffered text out as an argument, terminate and
      clear the buffer, and reset the index. */
  method WriteArg(buffer: array<char>, bufferIdx: nat) returns (arg: string, idx: nat)
    requires bufferIdx < buffer.Length
    modifies buffer
    ensures arg == old(buffer[..bufferIdx]) && idx == 0
    ensures forall k | 0 <= k <= bufferIdx :: buffer[k] == '\0'
    ensures forall k | bufferIdx < k < buffer.Length :: buffer[k] == old(buffer[k])
  {
    arg := buffer[..bufferIdx];
    buffer[bufferIdx] := '\0';
    forall k | 0 <= k < bufferIdx {
      buffer[k] := '\0';
    }
    idx := 0;
  }

  /** The quote handling and the copy that end each pass of the
      `stmt_make_from_str` loop, from index `i` of the terminated line
      `text`. `ok` is false where the C code would write a seventh
      argument. */
  method HandleQuotes(text: string, i: nat, buffer: array<char>, bufferIdx: nat,
                      insideString: bool, ghost readingOpcode: bool, ghost opcode: Opcode,
                      args: seq<string>)
    returns (ok: bool, i': nat, bufferIdx': nat, insideString': bool, args': seq<string>)
    requires i < |text| <= buffer.Length && text[|text| - 1] == '\0' && bufferIdx <= i
    requires forall k | bufferIdx <= k < buffer.Length :: buffer[k] == '\0'
    modifies buffer
    ensures ok ==> i < i' <= |text| && bufferIdx' <= i' - i + bufferIdx && bufferIdx' <= buffer.Length
    ensures ok ==> forall k | bufferIdx' <= k < buffer.Length :: buffer[k] == '\0'
    ensures var t := Quotes(text[i..], Scanner(old(buffer[..bufferIdx]), readingOpcode, insideString, opcode, args));
            if ok then t == Next(text[i'..], Scanner(buffer[..bufferIdx'], readingOpcode, insideString', opcode, args'))
            else t == Fail(Fault(TooManyArgs))
  {
    var j, inside := i, insideString;
    Suffix(text, i);
    if text[i] == '"' && !insideString {
      inside := true;
      j := i + 1;
    }
    assert Quotes(text[i..], Scanner(buffer[..bufferIdx], readingOpcode, insideString, opcode, args))
        == QuotesRest(text[j..], Scanner(buffer[..bufferIdx], readingOpcode, inside, opcode, args));
    ok, i', bufferIdx', insideString', args' := CloseOrCopy(text, j, buffer, bufferIdx, inside, readingOpcode, opcode, args);
  }

  /** The second half of the quote handling: a closing quote emits the
      buffered argument, and the current character is copied into the
      buffer. */
  method CloseOrCopy(text: string, i: nat, buffer: array<char>, bufferIdx: nat,
                     insideString: bool, ghost readingOpcode: bool, ghost opcode: Opcode,
                     args: seq<string>)
    returns (ok: bool, i': nat, bufferIdx': nat, insideString': bool, args': seq<string>)
    requires i < |text| <= buffer.Length && text[|text| - 1] == '\0' && bufferIdx <= i
    requires forall k | bufferIdx <= k < buffer.Length :: buffer[k] == '\0'
    modifies buffer
    ensures ok ==> i' == i + 1 && bufferIdx' <= bufferIdx + 1 && bufferIdx' <= buffer.Length
    ensures ok ==> forall k | bufferIdx' <= k < buffer.Length :: buffer[k] == '\0'
    ensures var t := QuotesRest(text[i..], Scanner(old(buffer[..bufferIdx]), readingOpcode, insideString, opcode, args));
            if ok then t == Next(text[i'..], Scanner(buffer[..bufferIdx'], readingOpcode, insideString', opcode, args'))
            else t == Fail(Fault(TooManyArgs))
  {
    ghost var sc := Scanner(buffer[..bufferIdx], readingOpcode, insideString, opcode, args);
    bufferIdx', insideString', args' := bufferIdx, insideString, args;
    Suffix(text, i);
    if text[i] == '"' && insideString {
      QuotesRestClose(text[i..], sc);
      insideString' := false;
      if |args| >= MaxArgs {
        return false, i, bufferIdx', insideString', args';
      }
      var arg;
      arg, bufferIdx' := WriteArg(buffer, bufferIdx);
      args' := args + [arg];
      assert buffer[..bufferIdx'] == "";
    } else {
      QuotesRestCopy(text[i..], sc);
    }
    ghost var buf := buffer[..bufferIdx'];
    buffer[bufferIdx'] := text[i];
    bufferIdx' := bufferIdx' + 1;
    i' := i + 1;
    assert buffer[..bufferIdx'] == buf + [text[i]];
    ok := true;
  }

  /** How a pass of the loop goes on after its delimiter handling. */
  datatype Flow = Continue | FallThrough | Return(result: Result<Statement>)

  /** The delimiter handling at the start of a pass of the
      `stmt_make_from_str` loop: the opcode lookup, or the emission of an
      argument followed by the extra step past the delimiter. */
  method HandleDelimiter(text: string, i: nat, buffer: array<char>, bufferIdx: nat,
                         readingOpcode: bool, ghost insideString: bool, opcode: Opcode,
                         args: seq<string>)
    returns (flow: Flow, i': nat, bufferIdx': nat, readingOpcode': bool, opcode': Opcode, args': seq<string>)
    requires i < |text| && text[|text| - 1] == '\0' && bufferIdx <= i < buffer.Length
    requires (text[i] == '\0' || text[i] == ' ') && !insideString
    requires forall k | bufferIdx <= k < buffer.Length :: buffer[k] == '\0'
    modifies buffer
    ensures !flow.Return? ==> i < i' <= |text| && bufferIdx' == 0
    ensures flow.FallThrough? ==> i' < |text|
    ensures !flow.Return? ==> forall k | 0 <= k < buffer.Length :: buffer[k] == '\0'
    ensures var t := Iterate(text[i..], Scanner(old(buffer[..bufferIdx]), readingOpcode, insideString, opcode, args));
            match flow
            case Continue => t == Next(text[i'..], Scanner(buffer[..bufferIdx'], readingOpcode', insideString, opcode', args'))
            case FallThrough => t == Quotes(text[i'..], Scanner(buffer[..bufferIdx'], readingOpcode', insideString, opcode', args'))
            case Return(r) => Scan(text[i..], Scanner(old(buffer[..bufferIdx]), readingOpcode, insideString, opcode, args)) == r
  {
    ghost var cs := text[i..];
    ghost var sc := Scanner(buffer[..bufferIdx], readingOpcode, insideString, opcode, args);
    Suffix(text, i);
    i', bufferIdx', readingOpcode', opcode', args' := i, bufferIdx, readingOpcode, opcode, args;
    if readingOpcode {
      IterOpcode(cs, sc);
      var op := OpcodeByName(buffer[..bufferIdx]);
      if op.None? {
        return Return(Err(InvalidOperation)), i', bufferIdx', readingOpcode', opcode', args';
      }
      opcode' := op.value;
      readingOpcode' := false;
      forall k | 0 <= k < bufferIdx {
        buffer[k] := '\0';
      }
      bufferIdx' := 0;
      i' := i + 1;
      assert buffer[..bufferIdx'] == "";
      return Continue, i', bufferIdx', readingOpcode', opcode', args';
    }
    IterEmit(cs, sc);
    if |args| >= MaxArgs {
      return Return(Err(Fault(TooManyArgs))), i', bufferIdx', readingOpcode', opcode', args';
    }
    var arg;
    arg, bufferIdx' := WriteArg(buffer, bufferIdx);
    args' := args + [arg];
    i' := i + 1;
    assert buffer[..bufferIdx'] == "";
    if i' >= |text| - 1 {
      return Return(Ok(Statement(opcode, args'))), i', bufferIdx', readingOpcode', opcode', args';
    }
    flow := FallThrough;
  }

  /** `stmt_make_from_str`. The caller reads lines with `fgets` into a
      buffer of BUFFER_SIZE characters, so a line holds fewer than
      BUFFER_SIZE characters and the token buffer cannot overflow. */
  method StmtMakeFromStr(src: string) returns (r: Result<Statement>)
    requires CString(src) && |src| < BufferSize
    ensures r == Tokenize(src)
  {
    var n := |src|;
    var text := src + "\0";
    var buffer := new char[BufferSize](_ => '\0');
    var bufferIdx: nat := 0;
    var readingOpcode, insideString := true, false;
    var opcode := Mov;
    var args: seq<string> := [];
    var i: nat := 0;
    while i <= n
      invariant i <= n + 1 && bufferIdx <= i
      invariant forall k | bufferIdx <= k < buffer.Length :: buffer[k] == '\0'
      invariant Scan(text[i..], Scanner(buffer[..bufferIdx], readingOpcode, insideString, opcode, args))
                == Tokenize(src)
    {
      ghost var cs0 := text[i..];
      ghost var sc0 := Scanner(buffer[..bufferIdx], readingOpcode, insideString, opcode, args);
      Suffix(text, i);
      if (text[i] == '\0' || text[i] == ' ') && !insideString {
        var flow;
        flow, i, bufferIdx, readingOpcode, opcode, args :=
          HandleDelimiter(text, i, buffer, bufferIdx, readingOpcode, insideString, opcode, args);
        if flow.Return? {
          return flow.result;
        } else if flow.Continue? {
          ScanNext(cs0, sc0, text[i..], Scanner(buffer[..bufferIdx], readingOpcode, insideString, opcode, args));
          continue;
        }
      } else {
        IterOther(cs0, sc0);
      }
      var ok;
      ok, i, bufferIdx, insideString, args := HandleQuotes(text, i, buffer, bufferIdx, insideString, readingOpcode, opcode, args);
      if !ok {
        return Err(Fault(TooManyArgs));
      }
      ScanNext(cs0, sc0, text[i..], Scanner(buffer[..bufferIdx], readingOpcode, insideString, opcode, args));
    }
    return Ok(Statement(opcode, args));
  }
}
