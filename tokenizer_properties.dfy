/** What the tokenizer makes of plain lines, quoted arguments and the
    irregular cases of its character loop. The lemmas are stated over the
    characters the loop has still to read, so a line `src` is scanned as
    `src + "\0"`, and over an opcode spelling `name` that
    `get_opcode_by_name` resolves. */
module TokenizerProperties {
  import opened Base
  import opened Tokenizer

  /** A character that the loop simply copies into the buffer outside a
      quotation. */
  predicate PlainChar(c: char) {
    c != ' ' && c != '"' && c != '\0'
  }

  predicate Plain(w: string) {
    forall k | 0 <= k < |w| :: PlainChar(w[k])
  }

  /** A non-empty unquoted token. */
  predicate Token(w: string) {
    w != [] && Plain(w)
  }

  predicate Tokens(ts: seq<string>) {
    forall k | 0 <= k < |ts| :: Token(ts[k])
  }

  predicate NoQuote(q: string) {
    forall k | 0 <= k < |q| :: q[k] != '"'
  }

  /** The tokens `ts`, each preceded by one space. */
  function Join(ts: seq<string>): string {
    if ts == [] then "" else " " + ts[0] + Join(ts[1..])
  }

  /** The arguments a run of delimited tokens emits when the buffer holds
      `b` as the run starts: each token is emitted by the space after it. */
  function Front(b: string, ts: seq<string>): seq<string>
    decreases |ts|
  {
    if ts == [] then [] else [b] + Front(ts[0], ts[1..])
  }

  /** The token left in the buffer after the run. */
  function Last(b: string, ts: seq<string>): string
    decreases |ts|
  {
    if ts == [] then b else Last(ts[0], ts[1..])
  }

  // Sequence facts, each proved in a context of its own.

  lemma Unit<T>(w: seq<T>)
    ensures [] + w == w && w + [] == w
  {
  }

  lemma Assoc<T>(a: seq<T>, b: seq<T>, c: seq<T>)
    ensures a + b + c == a + (b + c)
  {
  }

  lemma Uncons<T>(w: seq<T>)
    requires w != []
    ensures w == [w[0]] + w[1..]
  {
  }

  lemma Unshift(c: char, r: string)
    ensures [c] + r != [] && ([c] + r)[0] == c && ([c] + r)[1..] == r
    ensures Head([c] + r) == c && Tail([c] + r) == r
  {
  }

  lemma SplitFirst(b: string, w: string, r: string)
    requires w != []
    ensures w + r == [w[0]] + (w[1..] + r)
    ensures b + [w[0]] + w[1..] == b + w
  {
  }

  lemma JoinCons(ts: seq<string>, r: string)
    requires ts != [] && Tokens(ts)
    ensures Token(ts[0]) && Tokens(ts[1..])
    ensures Join(ts) + r == [' '] + (ts[0] + (Join(ts[1..]) + r))
  {
  }

  lemma {:induction false} JoinAppend(a: seq<string>, b: seq<string>)
    ensures Join(a + b) == Join(a) + Join(b)
  {
    if a != [] {
      assert (a + b)[1..] == a[1..] + b;
      JoinAppend(a[1..], b);
      Assoc(" " + a[0], Join(a[1..]), Join(b));
    } else {
      Unit(b);
      Unit(Join(b));
    }
  }

  lemma FrontCons(a: seq<string>, b: string, ts: seq<string>)
    requires ts != []
    ensures a + [b] + Front(ts[0], ts[1..]) == a + Front(b, ts)
    ensures Last(ts[0], ts[1..]) == Last(b, ts)
  {
  }

  /** The emitted arguments and the buffered token together are the
      buffer's old content followed by the whole run. */
  lemma {:induction false} FrontLast(b: string, ts: seq<string>)
    ensures Front(b, ts) + [Last(b, ts)] == [b] + ts
    ensures |Front(b, ts)| == |ts|
    decreases |ts|
  {
    if ts != [] {
      FrontLast(ts[0], ts[1..]);
      assert [ts[0]] + ts[1..] == ts;
    }
  }

  lemma TokensSplit(ts: seq<string>, n: nat)
    requires Tokens(ts) && n <= |ts|
    ensures Tokens(ts[..n]) && Tokens(ts[n..]) && ts == ts[..n] + ts[n..]
  {
  }

  lemma NoQuoteEnd(q: string)
    requires NoQuote(q)
    ensures q + "\0" != [] && (q + "\0")[0] != '"' && NoQuote((q + "\0")[1..])
  {
  }

  // The opcode spellings.

  lemma OpcodeNameToken(op: Opcode)
    ensures Token(OpcodeName(op))
  {
  }

  lemma OpcodeListed(op: Opcode)
    ensures op in Opcodes
  {
  }

  lemma {:induction false} LookupListed(op: Opcode, ops: seq<Opcode>)
    requires op in ops
    ensures Lookup(OpcodeName(op), ops).Some?
  {
    if ops[0] != op {
      LookupListed(op, ops[1..]);
    }
  }

  lemma OpcodeNameInjective(a: Opcode, b: Opcode)
    requires OpcodeName(a) == OpcodeName(b)
    ensures a == b
  {
  }

  /** Every spelling reads back as its opcode. */
  lemma OpcodeNameRoundTrip(op: Opcode)
    ensures OpcodeByName(OpcodeName(op)) == Some(op)
  {
    OpcodeListed(op);
    LookupListed(op, Opcodes);
    OpcodeNameInjective(OpcodeByName(OpcodeName(op)).value, op);
  }

  /** A name that resolves is an opcode's spelling, and a plain token. */
  lemma ResolvedName(name: string, op: Opcode)
    requires OpcodeByName(name) == Some(op)
    ensures name == OpcodeName(op) && Token(name)
  {
    OpcodeNameToken(op);
  }

  /** `get_opcode_by_name` fails exactly on the names that spell no
      opcode. */
  lemma UnknownName(name: string)
    ensures OpcodeByName(name).None? <==> forall op: Opcode :: OpcodeName(op) != name
  {
    if OpcodeByName(name).None? {
      forall op: Opcode
        ensures OpcodeName(op) != name
      {
        OpcodeListed(op);
      }
    }
  }

  // One pass of the loop body.

  lemma QuotesCopy(c: char, r: string, sc: Scanner)
    requires c != '"'
    ensures Quotes([c] + r, sc) == Next(r, sc.(buf := sc.buf + [c]))
  {
    Unshift(c, r);
    QuotesRestCopy([c] + r, sc);
  }

  lemma QuotesClose(r: string, sc: Scanner)
    requires sc.insideString
    ensures Quotes(['"'] + r, sc)
         == if |sc.args| >= MaxArgs then Fail(Fault(TooManyArgs))
            else Next(r, sc.(insideString := false, args := sc.args + [sc.buf], buf := "\""))
  {
    Unshift('"', r);
    QuotesRestClose(['"'] + r, sc);
  }

  lemma QuotesOpen(c: char, r: string, sc: Scanner)
    requires !sc.insideString
    ensures Quotes(['"'] + ([c] + r), sc)
         == if c != '"' then Next(r, sc.(insideString := true, buf := sc.buf + [c]))
            else if |sc.args| >= MaxArgs then Fail(Fault(TooManyArgs))
            else Next(r, sc.(args := sc.args + [sc.buf], buf := "\""))
  {
    Unshift('"', [c] + r);
    Unshift(c, r);
    if c == '"' {
      QuotesRestClose([c] + r, sc.(insideString := true));
    } else {
      QuotesRestCopy([c] + r, sc.(insideString := true));
    }
  }

  /** A pass that starts away from a delimiter. */
  lemma ScanQuotes(cs: string, sc: Scanner, rest: string, sc': Scanner)
    requires cs != [] && !AtDelimiter(cs, sc) && Quotes(cs, sc) == Next(rest, sc')
    ensures Scan(cs, sc) == Scan(rest, sc')
  {
    IterOther(cs, sc);
    ScanNext(cs, sc, rest, sc');
  }

  /** A pass that starts at a space between arguments: the buffered
      argument is emitted and the next character is handled in the same
      pass, without a check for a delimiter. */
  lemma ScanEmit(r: string, sc: Scanner, rest: string, sc': Scanner)
    requires |r| >= 2 && !sc.readingOpcode && !sc.insideString && |sc.args| < MaxArgs
    requires Quotes(r, sc.(args := sc.args + [sc.buf], buf := "")) == Next(rest, sc')
    ensures Scan([' '] + r, sc) == Scan(rest, sc')
  {
    Unshift(' ', r);
    IterEmit([' '] + r, sc);
    ScanNext([' '] + r, sc, rest, sc');
  }

  /** A plain character outside a quotation is copied into the buffer. */
  lemma ScanPlainChar(c: char, r: string, sc: Scanner)
    requires PlainChar(c) && !sc.insideString
    ensures Scan([c] + r, sc) == Scan(r, sc.(buf := sc.buf + [c]))
  {
    Unshift(c, r);
    QuotesCopy(c, r, sc);
    ScanQuotes([c] + r, sc, r, sc.(buf := sc.buf + [c]));
  }

  /** Inside a quotation a character other than `"` is copied. */
  lemma ScanInStringChar(c: char, r: string, sc: Scanner)
    requires c != '"' && sc.insideString
    ensures Scan([c] + r, sc) == Scan(r, sc.(buf := sc.buf + [c]))
  {
    Unshift(c, r);
    QuotesCopy(c, r, sc);
    ScanQuotes([c] + r, sc, r, sc.(buf := sc.buf + [c]));
  }

  /** Inside a quotation the closing `"` emits the captured argument and is
      itself copied into the fresh buffer. */
  lemma ScanCloseQuote(r: string, sc: Scanner)
    requires sc.insideString && |sc.args| < MaxArgs
    ensures Scan(['"'] + r, sc)
         == Scan(r, sc.(insideString := false, args := sc.args + [sc.buf], buf := "\""))
  {
    Unshift('"', r);
    QuotesClose(r, sc);
    ScanQuotes(['"'] + r, sc, r, sc.(insideString := false, args := sc.args + [sc.buf], buf := "\""));
  }

  /** An opening `"` is skipped and the character after it is handled
      inside the quotation in the same pass: another `"` closes it at
      once. */
  lemma ScanOpenQuote(c: char, r: string, sc: Scanner)
    requires !sc.insideString && (c == '"' ==> |sc.args| < MaxArgs)
    ensures c != '"' ==> Scan(['"'] + ([c] + r), sc) == Scan(r, sc.(insideString := true, buf := sc.buf + [c]))
    ensures c == '"' ==> Scan(['"'] + ([c] + r), sc) == Scan(r, sc.(args := sc.args + [sc.buf], buf := "\""))
  {
    Unshift('"', [c] + r);
    QuotesOpen(c, r, sc);
    if c == '"' {
      ScanQuotes(['"'] + ([c] + r), sc, r, sc.(args := sc.args + [sc.buf], buf := "\""));
    } else {
      ScanQuotes(['"'] + ([c] + r), sc, r, sc.(insideString := true, buf := sc.buf + [c]));
    }
  }

  /** The space after the opcode resolves it. */
  lemma StepOpcode(r: string, sc: Scanner, op: Opcode)
    requires sc.readingOpcode && !sc.insideString && OpcodeByName(sc.buf) == Some(op)
    ensures Scan([' '] + r, sc) == Scan(r, sc.(opcode := op, readingOpcode := false, buf := ""))
  {
    Unshift(' ', r);
    IterOpcode([' '] + r, sc);
    ScanNext([' '] + r, sc, r, sc.(opcode := op, readingOpcode := false, buf := ""));
  }

  /** A space between arguments, then a character that starts no
      quotation. */
  lemma StepDelimiter(c: char, r: string, sc: Scanner)
    requires c != '"' && r != []
    requires !sc.readingOpcode && !sc.insideString && |sc.args| < MaxArgs
    ensures Scan([' '] + ([c] + r), sc) == Scan(r, sc.(args := sc.args + [sc.buf], buf := [c]))
  {
    var e := sc.(args := sc.args + [sc.buf], buf := "");
    QuotesCopy(c, r, e);
    Unit([c]);
    ScanEmit([c] + r, sc, r, e.(buf := [c]));
  }

  /** A space between arguments, then an opening quote and the character
      after it. */
  lemma StepSpaceQuote(c: char, r: string, sc: Scanner)
    requires !sc.readingOpcode && !sc.insideString
    requires |sc.args| + (if c == '"' then 2 else 1) <= MaxArgs
    ensures c != '"' ==>
              Scan([' '] + (['"'] + ([c] + r)), sc)
              == Scan(r, sc.(insideString := true, args := sc.args + [sc.buf], buf := [c]))
    ensures c == '"' ==>
              Scan([' '] + (['"'] + ([c] + r)), sc)
              == Scan(r, sc.(args := sc.args + [sc.buf, ""], buf := "\""))
  {
    var e := sc.(args := sc.args + [sc.buf], buf := "");
    QuotesOpen(c, r, e);
    Unit([c]);
    if c == '"' {
      assert e.args + [e.buf] == sc.args + [sc.buf, ""];
      ScanEmit(['"'] + ([c] + r), sc, r, e.(args := e.args + [e.buf], buf := "\""));
    } else {
      ScanEmit(['"'] + ([c] + r), sc, r, e.(insideString := true, buf := [c]));
    }
  }

  /** The terminator after the last argument emits it. */
  lemma ScanEnd(sc: Scanner)
    requires !sc.readingOpcode && !sc.insideString
    ensures Scan("\0", sc)
         == if |sc.args| < MaxArgs then Ok(Statement(sc.opcode, sc.args + [sc.buf]))
            else Err(Fault(TooManyArgs))
  {
    IterEmit("\0", sc);
    if |sc.args| < MaxArgs {
      ScanDone("\0", sc, sc.(args := sc.args + [sc.buf], buf := ""));
    } else {
      ScanFail("\0", sc, Fault(TooManyArgs));
    }
  }

  // Runs of characters.

  /** Plain characters outside a quotation only grow the buffer. */
  lemma {:induction false} ScanPlain(w: string, r: string, sc: Scanner)
    requires Plain(w) && !sc.insideString
    ensures Scan(w + r, sc) == Scan(r, sc.(buf := sc.buf + w))
    decreases |w|
  {
    if w == [] {
      Unit(r);
      Unit(sc.buf);
    } else {
      SplitFirst(sc.buf, w, r);
      assert PlainChar(w[0]);
      ScanPlainChar(w[0], w[1..] + r, sc);
      ScanPlain(w[1..], r, sc.(buf := sc.buf + [w[0]]));
    }
  }

  /** A quotation up to its closing `"`. */
  lemma {:induction false} ScanInString(q: string, r: string, sc: Scanner)
    requires NoQuote(q) && sc.insideString && |sc.args| < MaxArgs
    ensures Scan(q + (['"'] + r), sc)
         == Scan(r, sc.(insideString := false, args := sc.args + [sc.buf + q], buf := "\""))
    decreases |q|
  {
    if q == [] {
      Unit(['"'] + r);
      Unit(sc.buf);
      ScanCloseQuote(r, sc);
    } else {
      SplitFirst(sc.buf, q, ['"'] + r);
      ScanInStringChar(q[0], q[1..] + (['"'] + r), sc);
      ScanInString(q[1..], r, sc.(buf := sc.buf + [q[0]]));
    }
  }

  /** A quotation that is never closed captures to the end of the line, and
      its text is never emitted. */
  lemma {:induction false} ScanInStringToEnd(cs: string, sc: Scanner)
    requires NoQuote(cs) && sc.insideString
    ensures Scan(cs, sc) == Ok(Statement(sc.opcode, sc.args))
    decreases |cs|
  {
    if cs != [] {
      Uncons(cs);
      ScanInStringChar(cs[0], cs[1..], sc);
      ScanInStringToEnd(cs[1..], sc.(buf := sc.buf + [cs[0]]));
    }
  }

  /** One space-delimited token: the space emits the buffered argument and
      the token becomes the buffer. */
  lemma StepToken(t: string, r: string, sc: Scanner)
    requires Token(t) && r != []
    requires !sc.readingOpcode && !sc.insideString && |sc.args| < MaxArgs
    ensures Scan([' '] + (t + r), sc) == Scan(r, sc.(args := sc.args + [sc.buf], buf := t))
  {
    SplitFirst([], t, r);
    Uncons(t);
    assert PlainChar(t[0]);
    StepDelimiter(t[0], t[1..] + r, sc);
    ScanPlain(t[1..], r, sc.(args := sc.args + [sc.buf], buf := [t[0]]));
  }

  /** Unquoted tokens, each after one space, met while the buffer holds the
      token before them. */
  lemma {:induction false} ScanTokens(ts: seq<string>, r: string, sc: Scanner)
    requires Tokens(ts) && r != []
    requires !sc.readingOpcode && !sc.insideString && |sc.args| + |ts| <= MaxArgs
    ensures Scan(Join(ts) + r, sc)
         == Scan(r, sc.(args := sc.args + Front(sc.buf, ts), buf := Last(sc.buf, ts)))
    decreases |ts|
  {
    if ts == [] {
      Unit(r);
      Unit(sc.args);
    } else {
      JoinCons(ts, r);
      StepToken(ts[0], Join(ts[1..]) + r, sc);
      ScanTokens(ts[1..], r, sc.(args := sc.args + [sc.buf], buf := ts[0]));
      FrontCons(sc.args, sc.buf, ts);
    }
  }

  /** A space and a closed quotation: the space emits the buffered
      argument, the closing quote emits the quotation. */
  lemma StepQuote(q: string, r: string, sc: Scanner)
    requires NoQuote(q) && !sc.readingOpcode && !sc.insideString && |sc.args| + 2 <= MaxArgs
    ensures Scan([' '] + (['"'] + (q + (['"'] + r))), sc)
         == Scan(r, sc.(args := sc.args + [sc.buf, q], buf := "\""))
  {
    if q == [] {
      Unit(['"'] + r);
      StepSpaceQuote('"', r, sc);
    } else {
      SplitFirst([], q, ['"'] + r);
      Uncons(q);
      StepSpaceQuote(q[0], q[1..] + (['"'] + r), sc);
      var sc2 := sc.(insideString := true, args := sc.args + [sc.buf], buf := [q[0]]);
      ScanInString(q[1..], r, sc2);
      assert sc2.args + [q] == sc.args + [sc.buf, q];
    }
  }

  /** A quotation right after the opcode, where no delimiter precedes the
      opening quote: the buffer and the quotation form one argument. */
  lemma StepQuoteAfterOpcode(q: string, r: string, sc: Scanner)
    requires NoQuote(q) && !sc.insideString && |sc.args| < MaxArgs
    ensures Scan(['"'] + (q + (['"'] + r)), sc)
         == Scan(r, sc.(args := sc.args + [sc.buf + q], buf := "\""))
  {
    if q == [] {
      Unit(['"'] + r);
      Unit(sc.buf);
      ScanOpenQuote('"', r, sc);
    } else {
      SplitFirst(sc.buf, q, ['"'] + r);
      ScanOpenQuote(q[0], q[1..] + (['"'] + r), sc);
      ScanInString(q[1..], r, sc.(insideString := true, buf := sc.buf + [q[0]]));
    }
  }

  /** A space and a quotation that is never closed: the space emits the
      buffered argument and nothing more is emitted. */
  lemma StepOpenQuoteToEnd(q: string, sc: Scanner)
    requires NoQuote(q) && !sc.readingOpcode && !sc.insideString && |sc.args| < MaxArgs
    ensures Scan([' '] + (['"'] + (q + "\0")), sc) == Ok(Statement(sc.opcode, sc.args + [sc.buf]))
  {
    var d := q + "\0";
    NoQuoteEnd(q);
    Uncons(d);
    StepSpaceQuote(d[0], d[1..], sc);
    ScanInStringToEnd(d[1..], sc.(insideString := true, args := sc.args + [sc.buf], buf := [d[0]]));
  }

  /** The same right after the opcode. */
  lemma OpenQuoteToEnd(q: string, sc: Scanner)
    requires NoQuote(q) && !sc.insideString
    ensures Scan(['"'] + (q + "\0"), sc) == Ok(Statement(sc.opcode, sc.args))
  {
    var d := q + "\0";
    NoQuoteEnd(q);
    Uncons(d);
    ScanOpenQuote(d[0], d[1..], sc);
    ScanInStringToEnd(d[1..], sc.(insideString := true, buf := sc.buf + [d[0]]));
  }

  // Whole lines.

  /** The opening of a line whose first token is `name`, followed by a
      space. */
  lemma StartOpcode(name: string, op: Opcode, r: string)
    requires OpcodeByName(name) == Some(op)
    ensures Scan(name + ([' '] + r), Start) == Scan(r, Scanner("", false, false, op, []))
  {
    ResolvedName(name, op);
    ScanPlain(name, [' '] + r, Start);
    Unit(name);
    StepOpcode(r, Start.(buf := name), op);
  }

  /** The opening of a line `name t1 ... tn r`: after the last token all
      tokens but it have been emitted, and it is in the buffer. */
  lemma StartTokens(name: string, op: Opcode, ts: seq<string>, r: string)
    requires OpcodeByName(name) == Some(op)
    requires Tokens(ts) && ts != [] && |ts| <= MaxArgs + 1 && r != []
    ensures Scan(name + (Join(ts) + r), Start)
         == Scan(r, Scanner(Last(ts[0], ts[1..]), false, false, op, Front(ts[0], ts[1..])))
  {
    JoinCons(ts, r);
    StartOpcode(name, op, ts[0] + (Join(ts[1..]) + r));
    var sc1 := Scanner("", false, false, op, []);
    ScanPlain(ts[0], Join(ts[1..]) + r, sc1);
    Unit(ts[0]);
    ScanTokens(ts[1..], r, sc1.(buf := ts[0]));
    Unit(Front(ts[0], ts[1..]));
  }

  /** Plain lines: an opcode followed by single-space-separated unquoted
      tokens yields that opcode and those tokens, in order. */
  lemma TokenizePlain(name: string, op: Opcode, ts: seq<string>)
    requires OpcodeByName(name) == Some(op)
    requires Tokens(ts) && |ts| <= MaxArgs
    ensures Tokenize(name + Join(ts)) == Ok(Statement(op, ts))
  {
    Assoc(name, Join(ts), "\0");
    if ts == [] {
      Unit(name);
      ResolvedName(name, op);
      ScanPlain(name, "\0", Start);
      Unit(name);
      var sc := Start.(buf := name);
      IterOpcode("\0", sc);
      ScanNext("\0", sc, [], Scanner("", false, false, op, []));
    } else {
      StartTokens(name, op, ts, "\0");
      ScanEnd(Scanner(Last(ts[0], ts[1..]), false, false, op, Front(ts[0], ts[1..])));
      FrontLast(ts[0], ts[1..]);
      Uncons(ts);
    }
  }

  /** A line whose first token is none of the ten spellings is refused; so
      is the empty first token of a blank line or of a line that starts
      with a space. */
  lemma TokenizeUnknownOpcode(w: string, rest: string)
    requires Plain(w) && forall op: Opcode :: OpcodeName(op) != w
    requires rest == [] || rest[0] == ' '
    ensures Tokenize(w + rest) == Err(InvalidOperation)
  {
    UnknownName(w);
    Assoc(w, rest, "\0");
    var r := rest + "\0";
    assert r[0] == ' ' || r[0] == '\0';
    ScanPlain(w, r, Start);
    Unit(w);
    IterOpcode(r, Start.(buf := w));
    ScanFail(r, Start.(buf := w), InvalidOperation);
  }

  /** A `"` in the first token opens a quotation before the opcode is
      looked up. With no second `"`, the rest of the line is captured, no
      delimiter is seen, and the line yields the zero-initialised opcode
      `mov` with no arguments and no error. */
  lemma TokenizeQuoteInOpcode(w: string, q: string)
    requires Plain(w) && NoQuote(q)
    ensures Tokenize(w + "\"" + q) == Ok(Statement(Mov, []))
  {
    assert w + "\"" + q + "\0" == w + (['"'] + (q + "\0"));
    ScanPlain(w, ['"'] + (q + "\0"), Start);
    Unit(w);
    OpenQuoteToEnd(q, Start.(buf := w));
  }

  lemma QuotedShape(a: string, b: string, q: string)
    ensures a + b + " \"" + q + "\"" + "\0" == a + (b + ([' '] + (['"'] + (q + (['"'] + "\0")))))
  {
  }

  /** Quoted arguments: the opening `"` is skipped, spaces inside are kept,
      the closing `"` ends the argument; it is also copied into the buffer,
      so the end of the line emits one more argument, `"`. */
  lemma TokenizeQuoted(name: string, op: Opcode, ts: seq<string>, q: string)
    requires OpcodeByName(name) == Some(op)
    requires Tokens(ts) && NoQuote(q) && |ts| + 2 <= MaxArgs
    ensures Tokenize(name + Join(ts) + " \"" + q + "\"") == Ok(Statement(op, ts + [q, "\""]))
  {
    QuotedShape(name, Join(ts), q);
    if ts == [] {
      QuotedFirst(name, op, q);
      assert [q, "\""] == ts + [q, "\""];
    } else {
      QuotedAfterTokens(name, op, ts, q);
    }
  }

  lemma QuotedFirst(name: string, op: Opcode, q: string)
    requires OpcodeByName(name) == Some(op) && NoQuote(q)
    ensures Scan(name + (Join([]) + ([' '] + (['"'] + (q + (['"'] + "\0"))))), Start)
         == Ok(Statement(op, [q, "\""]))
  {
    Unit([' '] + (['"'] + (q + (['"'] + "\0"))));
    StartOpcode(name, op, ['"'] + (q + (['"'] + "\0")));
    var sc1 := Scanner("", false, false, op, []);
    StepQuoteAfterOpcode(q, "\0", sc1);
    Unit(q);
    Unit([q]);
    ScanEnd(Scanner("\"", false, false, op, [q]));
    assert [q] + ["\""] == [q, "\""];
  }

  lemma QuotedAfterTokens(name: string, op: Opcode, ts: seq<string>, q: string)
    requires OpcodeByName(name) == Some(op)
    requires Tokens(ts) && ts != [] && NoQuote(q) && |ts| + 2 <= MaxArgs
    ensures Scan(name + (Join(ts) + ([' '] + (['"'] + (q + (['"'] + "\0"))))), Start)
         == Ok(Statement(op, ts + [q, "\""]))
  {
    StartTokens(name, op, ts, [' '] + (['"'] + (q + (['"'] + "\0"))));
    var sc2 := Scanner(Last(ts[0], ts[1..]), false, false, op, Front(ts[0], ts[1..]));
    FrontLast(ts[0], ts[1..]);
    Uncons(ts);
    StepQuote(q, "\0", sc2);
    ScanEnd(sc2.(args := sc2.args + [sc2.buf, q], buf := "\""));
    ArgsAfterQuote(sc2.args, sc2.buf, ts, q);
  }

  lemma ArgsAfterQuote(f: seq<string>, l: string, ts: seq<string>, q: string)
    requires f + [l] == ts
    ensures f + [l, q] + ["\""] == ts + [q, "\""]
  {
    assert f + [l, q] + ["\""] == (f + [l]) + [q, "\""];
  }

  lemma UnterminatedShape(a: string, b: string, q: string)
    ensures a + b + " \"" + q + "\0" == a + (b + ([' '] + (['"'] + (q + "\0"))))
  {
  }

  /** An unterminated quotation is never emitted: the line yields only the
      tokens before it. */
  lemma TokenizeUnterminated(name: string, op: Opcode, ts: seq<string>, q: string)
    requires OpcodeByName(name) == Some(op)
    requires Tokens(ts) && NoQuote(q) && |ts| <= MaxArgs
    ensures Tokenize(name + Join(ts) + " \"" + q) == Ok(Statement(op, ts))
  {
    UnterminatedShape(name, Join(ts), q);
    var tail := [' '] + (['"'] + (q + "\0"));
    if ts == [] {
      Unit(tail);
      StartOpcode(name, op, ['"'] + (q + "\0"));
      OpenQuoteToEnd(q, Scanner("", false, false, op, []));
    } else {
      StartTokens(name, op, ts, tail);
      FrontLast(ts[0], ts[1..]);
      Uncons(ts);
      StepOpenQuoteToEnd(q, Scanner(Last(ts[0], ts[1..]), false, false, op, Front(ts[0], ts[1..])));
    }
  }

  lemma DoubleSpaceShape(a: string, t: string)
    ensures a + "  " + t + "\0" == a + ([' '] + ([' '] + (t + "\0")))
  {
  }

  /** After the opcode a second space is a delimiter of its own and yields
      an empty argument. */
  lemma TokenizeDoubleSpaceAfterOpcode(name: string, op: Opcode, t: string)
    requires OpcodeByName(name) == Some(op) && Token(t)
    ensures Tokenize(name + "  " + t) == Ok(Statement(op, ["", t]))
  {
    DoubleSpaceShape(name, t);
    StartOpcode(name, op, [' '] + (t + "\0"));
    var sc1 := Scanner("", false, false, op, []);
    StepToken(t, "\0", sc1);
    Unit([""]);
    ScanEnd(sc1.(args := [""], buf := t));
    assert [""] + [t] == ["", t];
  }

  lemma SpacedPairShape(a: string, t: string, u: string)
    ensures a + " " + t + "  " + u + "\0" == a + ([' '] + (t + ([' '] + ([' '] + (u + "\0")))))
  {
  }

  /** Between arguments the character after a delimiter is never checked as
      a delimiter: a second space becomes part of the next argument. */
  lemma TokenizeDoubleSpaceBetweenArgs(name: string, op: Opcode, t: string, u: string)
    requires OpcodeByName(name) == Some(op) && Token(t) && Token(u)
    ensures Tokenize(name + " " + t + "  " + u) == Ok(Statement(op, [t, " " + u]))
  {
    SpacedPairShape(name, t, u);
    StartOpcode(name, op, t + ([' '] + ([' '] + (u + "\0"))));
    var sc1 := Scanner("", false, false, op, []);
    ScanPlain(t, [' '] + ([' '] + (u + "\0")), sc1);
    Unit(t);
    StepDelimiter(' ', u + "\0", sc1.(buf := t));
    Unit([t]);
    var sc2 := sc1.(args := [t], buf := [' ']);
    ScanPlain(u, "\0", sc2);
    ScanEnd(sc2.(buf := [' '] + u));
    assert [t] + [[' '] + u] == [t, " " + u];
  }

  /** More than MAX_ARGS arguments: the seventh would be written past the
      statement's argument slots, which the model reports as a fault. */
  lemma TokenizeTooManyArgs(name: string, op: Opcode, ts: seq<string>)
    requires OpcodeByName(name) == Some(op)
    requires Tokens(ts) && |ts| > MaxArgs
    ensures Tokenize(name + Join(ts)) == Err(Fault(TooManyArgs))
  {
    var a, b := ts[..MaxArgs + 1], ts[MaxArgs + 1..];
    TokensSplit(ts, MaxArgs + 1);
    JoinAppend(a, b);
    var r := Join(b) + "\0";
    Assoc(Join(a), Join(b), "\0");
    Assoc(name, Join(ts), "\0");
    StartTokens(name, op, a, r);
    var sc := Scanner(Last(a[0], a[1..]), false, false, op, Front(a[0], a[1..]));
    FrontLast(a[0], a[1..]);
    if b == [] {
      Unit("\0");
      ScanEnd(sc);
    } else {
      JoinCons(b, "\0");
      Unshift(' ', b[0] + (Join(b[1..]) + "\0"));
      IterEmit(r, sc);
      ScanFail(r, sc, Fault(TooManyArgs));
    }
  }

  lemma ExampleMov()
    ensures Tokenize("mov i0 42") == Ok(Statement(Mov, ["i0", "42"]))
  {
    var ts := ["i0", "42"];
    assert Token(ts[0]) && Token(ts[1]);
    OpcodeNameRoundTrip(Mov);
    TokenizePlain("mov", Mov, ts);
    assert "mov" + Join(ts) == "mov i0 42";
  }

  lemma ExamplePrntlQuoted()
    ensures Tokenize("prntl s0 \"hello world\"") == Ok(Statement(Prntl, ["s0", "hello world", "\""]))
  {
    var ts := ["s0"];
    assert Token(ts[0]) && NoQuote("hello world");
    OpcodeNameRoundTrip(Prntl);
    TokenizeQuoted("prntl", Prntl, ts, "hello world");
    PrntlQuotedText();
    assert ts + ["hello world", "\""] == ["s0", "hello world", "\""];
  }

  lemma PrntlQuotedText()
    ensures "prntl" + Join(["s0"]) + " \"" + "hello world" + "\"" == "prntl s0 \"hello world\""
  {
    assert Join(["s0"]) == " s0" by {
      assert ["s0"][1..] == [];
    }
  }
}
