/** Constants, machine integers and the error vocabulary shared by every
    part of the minilang interpreter model. */
module Base {

  /** Number of registers in each bank (MAX_REGISTERS). */
  const MaxRegisters: nat := 256
  /** Number of argument slots in a statement (MAX_ARGS). */
  const MaxArgs: nat := 6
  /** Size of the line and token buffers (BUFFER_SIZE). */
  const BufferSize: nat := 1024
  /** Capacity `main` gives the label table (INIT_PROGRAM_CAPACITY). */
  const InitProgramCapacity: nat := 256

  /** The C `int` of the integer register bank. */
  newtype int32 = x: int | -0x8000_0000 <= x < 0x8000_0000

  predicate InInt32(x: int) {
    -0x8000_0000 <= x < 0x8000_0000
  }

  /** The characters of a C string before its terminator: none of them is
      NUL. */
  predicate CString(s: string) {
    forall k | 0 <= k < |s| :: s[k] != '\0'
  }

  datatype Option<T> = None | Some(value: T)

  /** Situations in which the C program has undefined behaviour, or in which
      its behaviour depends on the float bank, which is not modelled. The
      model stops with one of these instead of guessing. */
  datatype Fault =
    | NullArgument         // an absent argument slot (a NULL pointer) is dereferenced
    | ReadPastEnd          // `atoi(s + 1)` on the empty argument reads past its terminator
    | TooManyArgs          // a seventh argument is written past `args[MAX_ARGS - 1]`
    | RegisterOutOfBounds  // `iregisters[-1]` (or `fregisters[-1]`) is read
    | IntOverflow          // a signed `int` result (or an `atoi` value) outside the `int` range
    | UnsetString          // `printf("%s", NULL)` on an unset string register
    | FloatBank            // the outcome depends on a float register's value

  /** The C `Error` enumeration (ERROR_NONE is the absence of an error),
      extended with the model-only `Fault` cases. */
  datatype Error =
    | InvalidRegisterType
    | InvalidRegisterNumber
    | InvalidOperation
    | MissingStart
    | DivZero
    | Fault(fault: Fault)

  datatype Result<T> = Ok(value: T) | Err(error: Error)
}
