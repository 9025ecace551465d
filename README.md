# minilang interpreter core, modelled in Dafny

minilang is a register-machine interpreter written in C (`main.c`). It reads a
source file line by line. Each line that is not blank becomes a statement:
an opcode and a list of string arguments. The statements form the statement
list of a label called `start`. The program's label table holds that label,
and `interpret` runs its first label against three global register banks:
256 `int` registers, 256 `double` registers and 256 string registers.

This project models that core.

- **Line tokenizer** (`tokenizer.dfy`, `tokenizer_properties.dfy`).
  - `stmt_make_from_str` is a character state machine. It is modelled twice:
    - as the function `Tokenize`, one step (`Iterate`) per pass of the loop;
    - as the method `StmtMakeFromStr`, a loop over a `char` buffer array,
      proved to compute `Tokenize`.
  - `write_arg` and `get_opcode_by_name` are modelled as well.
  - The lemmas state what the tokenizer makes of:
    - plain lines and quoted arguments;
    - unknown opcodes and double spaces;
    - unterminated quotes and an argument list that is too long.
- **Register references** (`registers.dfy`, `cnumeric.dfy`): `get_register`,
  `is_valid_register` and `get_register_index`. They rest on `isspace`, `atoi`,
  `printf("%d")` and C's truncating `int` division, which are written out in
  `CNumeric`.
- **Opcode semantics** (`semantics.dfy`, `semantics_properties.dfy`).
  - These are functions on a value `State`, which holds the `int` bank, the
    string bank and the text printed so far. Each of `mov`, `prnt`,
    `arithm`, `iarithm`, `incr`, `clear` and `parse_statement` has one.
  - `Run` is `parse_statements`.
- **Register file** (`machine.dfy`): class `Machine` holds the two banks as
  arrays and the output as a string. Its methods update them in place and are
  proved against the functions of `Semantics`.
- **Statement lists** (`statements.dfy`).
  - `statementlist` is a datatype, and `sl_append` is modelled on it.
  - `is_empty` is a loop.
  - The reading loop of `sl_make_from_file` is a method over the lines that
    `fgets` returns. It is proved against the function `Parse`.
- **Label table** (`program.dfy`): class `Program` holds the `labels` array,
  `cap` and `len`. It models `pg_init`, `pg_append_label` with its doubling,
  `find_label` and `interpret`.
- **Main** (`interpreter.dfy`, `scenarios.dfy`): lines 113-120 of `main`, as
  a method over the lines of a file, and two whole programs with their
  output.

### How C's undefined behaviour is modelled

Where the C code has undefined behaviour, the model stops with an explicit
`Fault` error instead of guessing. The cases are:

- a NULL argument is dereferenced;
- `atoi(s + 1)` runs on the empty argument;
- a seventh argument is written;
- `iregisters[-1]` is read;
- a signed `int` overflows;
- `atoi` reads a number outside the `int` range, whether in `mov` or in the
  number of a register reference (`i4294967296`);
- `printf("%s", NULL)` is called.

### Quirks of this version of the code

The model follows `main.c` as written, not the language as its documentation
describes it (jumps, `mod`, a three-operand add and register-to-register
moves). These are the quirks it reproduces:

- This version has only ten opcodes. It has no jumps, no `mod`, no
  three-operand add and no register-to-register `mov`.
  - `mov i0 i1` stores `atoi("i1") == 0`.
  - A line such as `start:` or `end` is an unknown operation.
- A closing quote emits the captured argument. The quote is then copied into
  the buffer, so the next delimiter emits an extra argument `"`.
- An unterminated quotation is never emitted.
- A `"` in the first token opens a quotation before the opcode is looked up.
  With no second `"` the line is accepted as `mov` with no arguments, the
  opcode of the zero-initialised statement (`x"y` is such a line).
- The number of arguments is not checked.
- After an argument delimiter the next character is consumed without being
  checked as a delimiter. So a double space between arguments puts a space
  into the next argument.
- The delimiter after the opcode ends with a `continue` that consumes
  nothing more. So after a double space the second space is read as a
  delimiter too, and the first argument is empty.
- `interpret` checks that some label is called `start`, but it runs
  `labels[0]`.

## Model

| member | source | states |
|---|---|---|
| Tokenizer.Lookup | main.c:181-194 | the opcode found is one spelled exactly `name`; nothing is found only when no opcode of the list is spelled `name` |
| Tokenizer.OpcodeByName | main.c:181-194 | `get_opcode_by_name` itself: a name found is the spelling of the opcode returned; `OpcodeNameRoundTrip`, `UnknownName` and `ResolvedName` state the rest |
| TokenizerProperties.OpcodeNameRoundTrip | main.c:181-194 | every one of the ten spellings resolves to its own opcode |
| TokenizerProperties.UnknownName | main.c:181-194 | the lookup fails (the C -1) if and only if no opcode is spelled `name` |
| TokenizerProperties.ResolvedName | main.c:181-194 | a name that resolves is the exact spelling of its opcode and contains no space or quote |
| Tokenizer.WriteArg | main.c:171-179 | the argument is a copy of `buffer[0..buffer_idx)`; the buffer up to `buffer_idx` is cleared, the rest is left alone, and the index is reset to 0 |
| Tokenizer.HandleDelimiter | main.c:136-156 | the delimiter part of one pass of the loop matches one step of `Iterate`: the opcode lookup, the emission of an argument and the extra step, or the `break` |
| Tokenizer.HandleQuotes | main.c:158-165 | the quote part of one pass matches `Quotes`: an opening quote is skipped, a closing quote emits the capture, and the character is copied into the buffer |
| Tokenizer.StmtMakeFromStr | main.c:126-169 | the character loop over the line and its terminator returns exactly `Tokenize(src)` |
| Tokenizer.Tokenize | main.c:126-169 | `stmt_make_from_str` as a function: the loop over the line and its terminator, from the zeroed statement; `StmtMakeFromStr` is proved to compute it and the `Tokenize…` lemmas state what it gives |
| Tokenizer.Scan | main.c:135-167 | the rest of the loop from the characters still to be read: a statement with the opcode and arguments gathered when they run out |
| Tokenizer.Pass | main.c:135-167 | one pass of the loop body followed by the rest of the loop; a `break` or early return ends it |
| Tokenizer.Iterate | main.c:136-156 | one pass of the loop body: the opcode lookup and `continue`, the emission with its extra step and `break`, or the quote handling; a pass that goes on leaves fewer characters to read |
| Tokenizer.Quotes | main.c:158-167 | the quote handling of a pass: an opening quote is skipped; a pass that goes on leaves fewer characters to read |
| Tokenizer.QuotesRest | main.c:159-167 | a closing quote emits the capture and the character is copied; the loop goes on at the next character |
| Tokenizer.CloseOrCopy | main.c:159-167 | the array code for a closing quote or a copied character equals `QuotesRest`, and a seventh argument is reported instead of written |
| TokenizerProperties.TokenizePlain | main.c:135-156 | an opcode followed by single-space-separated plain tokens (at most six) gives that opcode and those tokens in order |
| TokenizerProperties.TokenizeUnknownOpcode | main.c:137-140 | a first token that spells none of the ten names gives `ERROR_INVALID_OPERATION`, whatever follows its space |
| TokenizerProperties.TokenizeQuoted | main.c:158-165 | a closing quoted argument keeps its spaces, loses its quotes and is followed by an extra `"` argument |
| TokenizerProperties.TokenizeUnterminated | main.c:135-166 | the capture of an unterminated quotation is dropped; the arguments before it are kept |
| TokenizerProperties.TokenizeQuoteInOpcode | main.c:135-167 | a `"` in the first token hides the opcode from the lookup: with no second `"` the line gives `mov` with no arguments and no error |
| TokenizerProperties.TokenizeDoubleSpaceAfterOpcode | main.c:137-147 | a double space after the opcode gives an empty first argument |
| TokenizerProperties.TokenizeDoubleSpaceBetweenArgs | main.c:150-156 | a double space between arguments puts the second space at the front of the next argument |
| TokenizerProperties.TokenizeTooManyArgs | main.c:150-151 | a seventh argument is a write past `args[MAX_ARGS - 1]` and is reported as a fault |
| TokenizerProperties.ExampleMov | main.c:126-169 | `mov i0 42` gives `mov` with the arguments `i0` and `42` |
| TokenizerProperties.ExamplePrntlQuoted | main.c:126-169 | `prntl s0 "hello world"` gives `s0`, `hello world` and the extra `"` |
| Registers.GetRegister | main.c:235-244 | a bank is found exactly when the first character is `i`, `f` or `s`, and it is the bank that character names |
| Registers.IsValidRegister | main.c:241-244 | the characters `i`, `f` and `s`; `GetRegister` and `UnknownBank` state its use |
| Registers.GetRegisterIndex | main.c:246-250 | a fault exactly when `atoi` of the suffix is not an `int`; otherwise -1 or an index in [0, 256), and an index is that `atoi` value |
| Registers.ResolveReference | main.c:235-250 | `t<k>` with k in [0, 256) resolves to bank `t` and index `k` |
| Registers.OutOfRangeIndex | main.c:246-250 | `t<k>` with k an `int` outside [0, 256) resolves to index -1 |
| Registers.OverflowingIndex | main.c:246-250 | `t<k>` with k outside the `int` range makes `atoi` overflow and is a fault |
| Registers.NonNumericSuffix | main.c:246-250 | a suffix that does not start with a digit, sign or space (`ix` or a bare `i`) is index 0 |
| CNumeric.IsSpace | main.c:520 | `isspace` in the "C" locale: space, tab, newline, vertical tab, form feed and carriage return; `IsEmpty` and `Atoi` rest on it |
| CNumeric.AtoiIntToString | main.c:255-256 | `atoi` reads back the decimal text of every integer |
| CNumeric.Atoi | main.c:248 | `atoi`: leading white space, an optional sign and the digits that follow; `AtoiIntToString` and `NonNumericSuffix` state its value |
| CNumeric.IntToString | main.c:275 | the `%d` text of an integer: an optional `-`, then digits |
| CNumeric.CDiv | main.c:316-319 | C `int` division; `CDivTruncates` and `CDivInRange` state it |
| CNumeric.CDivTruncates | main.c:316-319 | C `/` truncates toward zero: the remainder has the sign of the dividend and is smaller than the divisor in magnitude |
| CNumeric.CDivInRange | main.c:316-319 | the quotient of two `int`s is an `int` except for `INT_MIN / -1` |
| Semantics.Initial | main.c:33-35 | the banks start zeroed and unset and nothing is printed |
| Semantics.ToInt32 | main.c:304-325 | a C `int` result is its value when it is in range and an overflow fault otherwise |
| Semantics.Mov | main.c:252-269 | only the target register may change and nothing is printed |
| Semantics.Prnt | main.c:271-286 | the banks are unchanged and the old output is a prefix of the new one |
| Semantics.Shown | main.c:271-282 | the text `printf` writes for a register: defined for an integer and for a set string, a float or an unset string gives its fault; a string shows its text |
| Semantics.Apply | main.c:307-319 | the C operator of `add`, `sub`, `mul` and `div` before the range check, `div` truncating; `IntArithmetic` and `Division` state it |
| Semantics.IArithm | main.c:304-325 | only `iregisters[dst]` may change; strings and output are unchanged |
| Semantics.Arithm | main.c:288-302 | only the destination register may change and nothing is printed |
| Semantics.Incr | main.c:350-357 | only the target integer register may change |
| Semantics.Clear | main.c:359-370 | an integer register becomes 0, a string register becomes unset, and nothing else changes |
| Semantics.ParseStatement | main.c:196-233 | a statement that succeeds had a resolvable first argument and changed only that register; output only grows |
| Semantics.Arg | main.c:209-217 | argument slot k: the argument when `k < nargs`, and NULL (`None`) past it |
| Semantics.Dispatch | main.c:207-230 | only the resolved register may change; output only grows |
| Semantics.Run | main.c:422-431 | the banks keep their size and the output only grows along a run |
| SemanticsProperties.Resolved | main.c:196-206 | a well-formed first argument passes both checks, and the statement goes to the opcode switch |
| SemanticsProperties.UnknownBank | main.c:199-201 | a first argument whose letter is not `i`, `f` or `s` is refused with `ERROR_INVALID_REGISTER_TYPE`, before the number is looked at |
| SemanticsProperties.ResolvedSuffix | main.c:196-206 | a valid letter and any suffix that `atoi` reads as k in [0, 256) reach the switch with register k |
| SemanticsProperties.SuffixOutOfRange | main.c:203-205 | a valid letter and any suffix that `atoi` reads as an `int` outside [0, 256) give `ERROR_INVALID_REGISTER_NUMBER` |
| SemanticsProperties.NumberOutOfRange | main.c:203-205 | a valid letter with an `int` number outside [0, 256) is refused with `ERROR_INVALID_REGISTER_NUMBER` |
| SemanticsProperties.NumberOverflows | main.c:203-205 | a valid letter with a number outside the `int` range is a fault of `atoi`, reached before the range check |
| SemanticsProperties.MovInt | main.c:252-257 | `mov i<k> x` stores `atoi(x)` into register k and changes nothing else |
| SemanticsProperties.MovDecimal | main.c:252-257 | `mov` of the decimal text of a value stores that value |
| SemanticsProperties.MovRegisterName | main.c:252-257 | `mov i<k> <register>` stores 0: there is no register-to-register move |
| SemanticsProperties.MovString | main.c:262-266 | `mov s<k> x` stores a copy of `x`; without `x` the C code reads NULL |
| SemanticsProperties.ClearRegister | main.c:359-370 | `clr` zeroes an integer register and unsets a string register |
| SemanticsProperties.PrintRegister | main.c:271-286 | `prnt` appends the decimal text of an integer or a set string, and `prntl` adds a newline; printing an unset string is a fault |
| SemanticsProperties.StringTargetUnchanged | main.c:215-225 | with a string target, arithmetic and `incr`/`decr` change nothing and report no error, except where `atoi` of the arithmetic source overflows |
| SemanticsProperties.IncrDecrByOne | main.c:350-357 | `incr`/`decr` move an integer register by exactly +1/-1, or overflow |
| SemanticsProperties.IntArithmetic | main.c:215-221 | integer arithmetic uses only the number of its source; division by a zero register is `ERROR_DIV_ZERO`; otherwise the destination takes the C result |
| SemanticsProperties.Division | main.c:316-319 | `div` succeeds exactly when it is not `INT_MIN / -1`, changes only the destination, and stores the truncated quotient |
| SemanticsProperties.SourceOutOfRange | main.c:217 | an out-of-range `int` source number is not checked, so `iregisters[-1]` is read |
| SemanticsProperties.SourceOverflows | main.c:217 | an arithmetic source whose number is outside the `int` range is a fault of `atoi` |
| SemanticsProperties.SourceLetterIgnored | main.c:217 | replacing the letter of an arithmetic source does not change the outcome |
| SemanticsProperties.RunAppend | main.c:422-431 | running two lists one after the other is running their concatenation |
| SemanticsProperties.RunStops | main.c:424-429 | nothing after the first failing statement runs, and the state is the one it failed in |
| SemanticsProperties.RunCompletes | main.c:422-431 | a run with no error ran every statement, prefix by prefix |
| RegisterFile.Machine.constructor | main.c:33-35 | the arrays start in the state `Initial` |
| RegisterFile.Machine.Mov | main.c:252-269 | the in-place update is `Semantics.Mov` of the old state; an error changes nothing |
| RegisterFile.Machine.Prnt | main.c:271-286 | the output is `Semantics.Prnt` of the old state; an error prints nothing |
| RegisterFile.Machine.IArithm | main.c:304-325 | the arrays become `Semantics.IArithm` of the old state; an error changes nothing |
| RegisterFile.Machine.Arithm | main.c:288-302 | the arrays become `Semantics.Arithm` of the old state |
| RegisterFile.Machine.Incr | main.c:350-357 | the arrays become `Semantics.Incr` of the old state |
| RegisterFile.Machine.Clear | main.c:359-370 | the arrays become `Semantics.Clear` of the old state |
| RegisterFile.Machine.ParseStatement | main.c:196-233 | the new state is `Semantics.ParseStatement` of the old one; an error changes nothing |
| RegisterFile.Machine.Dispatch | main.c:207-230 | the opcode switch does what `Semantics.Dispatch` says |
| RegisterFile.Machine.ParseStatements | main.c:422-431 | the loop over the nodes ends in the state and with the error of `Run` over the list's elements |
| Statements.Append | main.c:414-420 | the new list holds the old statements followed by the new one |
| Statements.IsEmpty | main.c:517-524 | true if and only if every character of the line is white space |
| Statements.Blank | main.c:517-524 | every character is C-locale white space; `IsEmpty` is proved to compute it |
| Statements.MakeFromLines | main.c:391-412 | the reading loop gives the statements `Parse` gives, or the first error and the NULL list |
| Statements.Parse | main.c:396-409 | `sl_make_from_file`'s loop as a function on the lines: at most one statement per line; `ParseSucceeds`, `FirstError`, `BlankLineSkipped`, `ParseAppend` and `ParseEachLine` state the rest |
| Statements.ParseAppend | main.c:396-409 | reading two runs of lines is reading the first and then the second; the first error wins |
| Statements.BlankLineSkipped | main.c:398-399 | a blank line adds no statement and causes no error |
| Statements.FirstError | main.c:402-405 | the first line that does not tokenize decides the outcome, whatever follows |
| Statements.ParseSucceeds | main.c:396-409 | reading succeeds if and only if every line that is not blank tokenizes |
| Statements.ParseEachLine | main.c:396-409 | without blank lines, the statements are those of the lines, one for one and in order |
| LabelTable.Program.Init | main.c:460-465 | the table has the given capacity, no labels and empty slots |
| LabelTable.Program.AppendLabel | main.c:476-487 | with no capacity nothing changes; otherwise the label is appended, the capacity doubles exactly when `len + 1 >= cap / 2`, and the write slot stays inside the array |
| LabelTable.Program.Grow | main.c:481-484 | the capacity doubles, the labels are kept and the new slots are empty |
| LabelTable.Program.FindLabel | main.c:501-508 | true if and only if some appended label has the name |
| LabelTable.HasLabel | main.c:501-508 | some label of the table carries the name; `FindLabel` is proved to compute it |
| LabelTable.Interpretation | main.c:489-499 | `interpret` as a function: `ERROR_MISSING_START` without a `start` label, else the run of `labels[0]`; `MissingStartRunsNothing` and `FirstLabelRuns` state it |
| LabelTable.Program.Interpret | main.c:489-499 | the machine ends as `Interpretation` of the table says: `ERROR_MISSING_START` with nothing run, or the run of `labels[0]` |
| LabelTable.MissingStartRunsNothing | main.c:492-496 | without a `start` label nothing runs and nothing is printed |
| LabelTable.FirstLabelRuns | main.c:491-498 | a `start` label anywhere in the table makes `interpret` run `labels[0]` |
| Interpreter.ToRun | main.c:113-118 | the statements the `start` label holds: those `Parse` reads, or none when `sl_make_from_file` returns NULL; `ReadErrorRunsNothing` and `ReadFileRuns` state it |
| Interpreter.Execution | main.c:113-120 | what `main` reports for the lines of a file: the reading error, if any, and the run of `ToRun` from zeroed registers; `FirstBadLineReported` and `ReadFileRuns` state it |
| Interpreter.Execute | main.c:113-120 | building the table from the lines and interpreting it gives `Execution` of the lines |
| Interpreter.ReadErrorRunsNothing | main.c:116-120 | after a tokenizer error the `start` label is empty: nothing runs and nothing is printed |
| Interpreter.FirstBadLineReported | main.c:402-405 | the first bad line is reported and no line of the file runs, not even those before it |
| Interpreter.ReadFileRuns | main.c:113-120 | when every line is read, the run is that of the file's statements from zeroed registers |
| Scenarios.CounterProgram | main.c:113-120 | `mov i0 42`, a blank line, `incr i0`, `prntl i0` prints `43` and a newline |
| Scenarios.DivisionProgram | main.c:316-319 | `mov i0 1`, `div i0 i1`, `prntl i0` stops with `ERROR_DIV_ZERO`, prints nothing and leaves `i0` at 1 |

## Left out

- The float bank (`fregisters`, `farithm`, `atof`, `%g`) is floating point and is not modelled.
  - `mov`, `incr`, `clr` and `add`/`sub`/`mul` on an `f` register leave the modelled state as it is.
  - `prnt` of an `f` register stops with `Fault(FloatBank)`.
  - So does `div` with an `f` target, whose outcome depends on a float value.
- File handling: `fopen`, the usage and missing-file messages, and `main`'s exit status are I/O.
  - `main` returns 0 even after an error.
- `fgets` splitting is not modelled. The model takes the lines as `fgets` returns them, with the newline removed by `strcspn`.
  - So each line is shorter than `BUFFER_SIZE` and holds no NUL.
  - Splitting longer physical lines into 1023-character pieces is not modelled.
- The text that `fail` prints is left out. Errors are returned as `Error` values.
- Memory ownership is not modelled; strings and lists are values. This covers:
  - `malloc`/`free` and the leak of the replaced string in `mov`;
  - `sl_make`, `sl_free`, `new_node` and `pg_deinit`.
- `make_label` is the `Label` constructor.
- Output goes to an output string, not to stdout.
- `LabelTable.Program.AppendLabel`: `cap` and `len` are unbounded naturals.
  - The `unsigned` wrap-around of `cap *= 2` is not modelled.
  - A failing `calloc` or `realloc` is not modelled.
  - The tail that `realloc` leaves uninitialised is modelled as empty slots.
- Undefined behaviour stops the model with a `Fault`. The C program might crash or go on with garbage instead.
- `Interpreter.Execute` starts from zeroed registers. This matches a process that runs `main` once.
- Characters are bytes: each Dafny `char` of a line stands for one C `char`, an 8-bit byte.
  - `BufferSize`, `IsSpace` and `WriteArg` count and compare single bytes.
  - Multibyte UTF-8 text is not modelled. A line holding it stands for the list of its bytes, each one `char`, not for its Unicode characters.
- `Registers.GetRegister` and `SemanticsProperties.UnknownBank` assume that `char` is signed, as on x86.
  - `get_register` returns a `char`, and `parse_statement` compares it with -1 as an `int`.
  - Where `char` is unsigned (AArch64 or PowerPC Linux), the -1 becomes 255 and `ERROR_INVALID_REGISTER_TYPE` is never reported.
  - There a bad letter reaches the opcode switch, whose `switch` on the letter matches no bank: `prntl x0` prints only a newline and `add x0 i1` reports no error.
  - The model has the signed behaviour only.
