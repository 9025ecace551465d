/** The statement list of a label and the reading of a source file into
    one. The C `statementlist` is a NULL-terminated chain of
    `statementnode`s that only ever grows at its end; it is a datatype
    here, and `Elements` is the sequence it stands for. */
module Statements {
  import opened Base
  import opened CNumeric
  import opened Tokenizer

  /** `statementlist`: `Nil` is the NULL list. */
  datatype StatementList = Nil | Node(s: Statement, next: StatementList)

  /** The statements of a list, first node first. */
  function Elements(sl: StatementList): seq<Statement> {
    match sl
    case Nil => []
    case Node(s, next) => [s] + Elements(next)
  }

  /** `sl_append`: the list with one more node at its end. */
  function Append(sl: StatementList, stmt: Statement): (r: StatementList)
    ensures Elements(r) == Elements(sl) + [stmt]
  {
    match sl
    case Nil => Node(stmt, Nil)
    case Node(s, next) => Node(s, Append(next, stmt))
  }

  /** A line made only of white space (the empty line included). */
  predicate Blank(s: string) {
    forall k | 0 <= k < |s| :: IsSpace(s[k])
  }

  /** `is_empty`: the loop over the characters of a C string up to its
      terminator. */
  method IsEmpty(s: string) returns (b: bool)
    requires CString(s)
    ensures b <==> Blank(s)
  {
    var text := s + "\0";
    var i := 0;
    while text[i] != '\0'
      invariant 0 <= i <= |s|
      invariant forall k | 0 <= k < i :: IsSpace(s[k])
      decreases |s| - i
    {
      if !IsSpace(text[i]) {
        return false;
      }
      i := i + 1;
    }
    return true;
  }

  /** `ss` in front of the statements of `r`, or the error of `r`. */
  function Prepend(ss: seq<Statement>, r: Result<seq<Statement>>): (r': Result<seq<Statement>>)
    ensures r'.Ok? <==> r.Ok?
  {
    if r.Err? then r else Ok(ss + r.value)
  }

  /** What `sl_make_from_file` makes of the lines it reads: the statements
      of the lines that are not blank, in order, or the error of the first
      such line that does not tokenize. */
  function Parse(lines: seq<string>): (r: Result<seq<Statement>>)
    ensures r.Ok? ==> |r.value| <= |lines|
  {
    if lines == [] then Ok([])
    else if Blank(lines[0]) then Parse(lines[1..])
    else
      match Tokenize(lines[0])
      case Err(e) => Err(e)
      case Ok(s) => Prepend([s], Parse(lines[1..]))
  }

  lemma PrependAssoc(a: seq<Statement>, b: seq<Statement>, r: Result<seq<Statement>>)
    ensures Prepend(a, Prepend(b, r)) == Prepend(a + b, r)
  {
    if r.Ok? {
      assert a + (b + r.value) == a + b + r.value;
    }
  }

  /** One pass of the reading loop, from line `i`. */
  lemma ParseAt(lines: seq<string>, i: nat)
    requires i < |lines|
    ensures Parse(lines[i..])
         == if Blank(lines[i]) then Parse(lines[i + 1..])
            else if Tokenize(lines[i]).Err? then Err(Tokenize(lines[i]).error)
            else Prepend([Tokenize(lines[i]).value], Parse(lines[i + 1..]))
  {
    assert lines[i..][0] == lines[i] && lines[i..][1..] == lines[i + 1..];
  }

  /** The reading loop of `sl_make_from_file` over the lines `fgets`
      returns, with their newline removed. A line that does not tokenize
      makes it report the error and return the NULL list. */
  method MakeFromLines(lines: seq<string>) returns (sl: StatementList, err: Option<Error>)
    requires forall k | 0 <= k < |lines| :: CString(lines[k]) && |lines[k]| < BufferSize
    ensures err.None? <==> Parse(lines).Ok?
    ensures err.None? ==> Elements(sl) == Parse(lines).value
    ensures err.Some? ==> err.value == Parse(lines).error && sl == Nil
  {
    sl := Nil;
    var i := 0;
    assert lines[0..] == lines;
    assert Parse(lines).Ok? ==> [] + Parse(lines).value == Parse(lines).value;
    while i < |lines|
      invariant 0 <= i <= |lines|
      invariant Parse(lines) == Prepend(Elements(sl), Parse(lines[i..]))
    {
      var line := lines[i];
      ParseAt(lines, i);
      var empty := IsEmpty(line);
      if !empty {
        var r := StmtMakeFromStr(line);
        if r.Err? {
          return Nil, Some(r.error);
        }
        PrependAssoc(Elements(sl), [r.value], Parse(lines[i + 1..]));
        sl := Append(sl, r.value);
      }
      i := i + 1;
    }
    assert lines[i..] == [];
    assert Elements(sl) + [] == Elements(sl);
    return sl, None;
  }

  /** Reading two runs of lines one after the other is reading their
      concatenation: the first error wins. */
  lemma {:induction false} ParseAppend(a: seq<string>, b: seq<string>)
    ensures Parse(a + b) == if Parse(a).Err? then Parse(a) else Prepend(Parse(a).value, Parse(b))
    decreases |a|
  {
    if a == [] {
      assert a + b == b;
      if Parse(b).Ok? {
        assert [] + Parse(b).value == Parse(b).value;
      }
    } else {
      assert (a + b)[0] == a[0] && (a + b)[1..] == a[1..] + b;
      ParseAppend(a[1..], b);
      if !Blank(a[0]) && Tokenize(a[0]).Ok? && Parse(a[1..]).Ok? {
        PrependAssoc([Tokenize(a[0]).value], Parse(a[1..]).value, Parse(b));
      }
    }
  }

  /** A line of white space adds no statement and never fails. */
  lemma BlankLineSkipped(a: seq<string>, line: string, b: seq<string>)
    requires Blank(line)
    ensures Parse(a + [line] + b) == Parse(a + b)
  {
    assert a + [line] + b == a + ([line] + b);
    ParseAppend(a, [line] + b);
    ParseAppend(a, b);
    assert ([line] + b)[1..] == b;
  }

  /** The first line that does not tokenize decides the outcome, whatever
      follows it. */
  lemma FirstError(a: seq<string>, line: string, b: seq<string>)
    requires Parse(a).Ok? && !Blank(line) && Tokenize(line).Err?
    ensures Parse(a + [line] + b) == Err(Tokenize(line).error)
  {
    assert a + [line] + b == a + ([line] + b);
    ParseAppend(a, [line] + b);
    assert ([line] + b)[0] == line;
  }

  /** Reading succeeds exactly when every line that is not blank
      tokenizes. */
  lemma {:induction false} ParseSucceeds(lines: seq<string>)
    ensures Parse(lines).Ok?
        <==> forall k | 0 <= k < |lines| :: !Blank(lines[k]) ==> Tokenize(lines[k]).Ok?
    decreases |lines|
  {
    if lines != [] {
      ParseSucceeds(lines[1..]);
      assert forall k | 1 <= k < |lines| :: lines[k] == lines[1..][k - 1];
      if Parse(lines).Ok? {
        forall k | 0 <= k < |lines| && !Blank(lines[k])
          ensures Tokenize(lines[k]).Ok?
        {
          if k > 0 {
            assert lines[k] == lines[1..][k - 1];
          }
        }
      }
    }
  }

  /** Without blank lines, the statements are those of the lines, one for
      one and in order. */
  lemma {:induction false} ParseEachLine(lines: seq<string>)
    requires forall k | 0 <= k < |lines| :: !Blank(lines[k]) && Tokenize(lines[k]).Ok?
    ensures Parse(lines).Ok? && |Parse(lines).value| == |lines|
    ensures forall k | 0 <= k < |lines| :: Parse(lines).value[k] == Tokenize(lines[k]).value
    decreases |lines|
  {
    if lines != [] {
      assert forall k | 0 <= k < |lines| - 1 :: lines[1..][k] == lines[k + 1];
      ParseEachLine(lines[1..]);
    }
  }
}
