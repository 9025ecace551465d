/** The body of `main` once the source file is open: read its lines into a
    statement list, make that list the `start` label of a fresh program,
    and interpret the program. */
module Interpreter {
  import opened Base
  import opened Tokenizer
  import opened Semantics
  import opened Statements
  import opened RegisterFile
  import opened LabelTable

  /** What a run of `main` reports: the error that stopped the reading of
      the file, if any, and where the interpretation ended. */
  datatype Report = Report(readError: Option<Error>, outcome: Outcome)

  /** The statements `main` runs for the lines of a file: those the lines
      read to, or none at all when a line does not tokenize. */
  function ToRun(lines: seq<string>): seq<Statement> {
    if Parse(lines).Ok? then Parse(lines).value else []
  }

  /** What `main` does with the lines of a file, from the zeroed
      registers. */
  function Execution(lines: seq<string>): Report {
    Report(if Parse(lines).Err? then Some(Parse(lines).error) else None,
           Run(Initial(), ToRun(lines)))
  }

  /** A line that does not tokenize is reported, and then nothing runs:
      the `start` label `main` builds from the NULL list is empty. */
  lemma ReadErrorRunsNothing(lines: seq<string>)
    requires Parse(lines).Err?
    ensures Execution(lines) == Report(Some(Parse(lines).error), Outcome(Initial(), None))
    ensures Execution(lines).outcome.state.out == []
  {
  }

  /** The first line that does not tokenize is the one reported, and no
      line of the file runs, not even those before it. */
  lemma FirstBadLineReported(a: seq<string>, line: string, b: seq<string>)
    requires Parse(a).Ok? && !Blank(line) && Tokenize(line).Err?
    ensures Execution(a + [line] + b) == Report(Some(Tokenize(line).error), Outcome(Initial(), None))
  {
    FirstError(a, line, b);
  }

  /** With every line read, the run is that of the file's statements from
      the zeroed registers. */
  lemma ReadFileRuns(lines: seq<string>)
    requires forall k | 0 <= k < |lines| :: !Blank(lines[k]) ==> Tokenize(lines[k]).Ok?
    ensures Execution(lines).readError == None
    ensures Execution(lines).outcome == Run(Initial(), Parse(lines).value)
  {
    ParseSucceeds(lines);
  }

  /** Lines 113-120 of `main`, given the lines `fgets` reads from the
      file. */
  method Execute(lines: seq<string>) returns (m: Machine, readError: Option<Error>, e: Option<Error>)
    requires forall k | 0 <= k < |lines| :: CString(lines[k]) && |lines[k]| < BufferSize
    ensures m.Valid()
    ensures Report(readError, Outcome(m.Current(), e)) == Execution(lines)
  {
    var pg := new Program.Init(InitProgramCapacity);
    var sl;
    sl, readError := MakeFromLines(lines);
    var start := Label(Some("start"), sl);
    pg.AppendLabel(start);
    assert pg.Contents() == [start];
    assert pg.Contents()[0].name == Some("start");
    m := new Machine();
    e := pg.Interpret(m);
  }
}
