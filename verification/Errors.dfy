/** The exceptions of the package, as values (exceptions.py), and the values response parsers return. */
module Errors {

  import opened Wrappers

  /** A parsed response, or the value a write is expected to read back as. */
  datatype Value =
    | Nothing
    | Flag(on: bool)
    | Number(amount: real)
    | Text(text: string)
    | Group(items: seq<Value>)

  /** A positional argument of an exception. Opaque stands for a Python object known by its repr only. */
  datatype Arg =
    | NoArg
    | BoolArg(flag: bool)
    | NumberArg(amount: real)
    | TextArg(text: string)
    | OpaqueArg(repr: string)

  /** The attributes batch_command_index, batch_command_kind and batch_command of an exception. */
  datatype Position = Position(index: Option<int>, kind: Option<string>, command: Option<string>)

  const UNPLACED := Position(None, None, None)

  /** Why a write could not be confirmed; it determines the message of the verification error. */
  datatype Reason =
    | QueryFailed(cause: Error)
    | NoReadback(why: string)
    | NoReply
    | Unusable(cause: Error)
    | Mismatch

  /** South is an SPD3000Error as raised below the driver; Verification is the SPD3000VerificationError
      the driver itself raises; Gateway is a GatewayError; Foreign is any other exception. */
  datatype Error =
    | South(cls: string, args: seq<Arg>, at: Position)
    | Verification(reason: Reason, command: string, query: Option<string>, expected: Value, actual: Option<Value>)
    | Gateway(cls: string, message: string)
    | Foreign(cls: string, message: string)

  /** isinstance(e, SPD3000Error) */
  predicate IsSouth(e: Error) {
    e.South? || e.Verification?
  }

  /** getattr(e, "batch_command_index", None) */
  function BlamedIndex(e: Error): Option<int> {
    if e.South? then e.at.index else None
  }

  function SouthError(cls: string, message: string): Error {
    South(cls, [TextArg(message)], UNPLACED)
  }

  function ValidationError(message: string): Error {
    SouthError("SPD3000ValidationError", message)
  }

  function ProtocolError(message: string): Error {
    SouthError("SPD3000ProtocolError", message)
  }

  const ASSERTION_ERROR := Foreign("AssertionError", "")

}
