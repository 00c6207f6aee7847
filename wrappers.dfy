/** Option and Result types, and the error kinds the modelled code raises. */
module Wrappers {

  datatype Option<+T> = None | Some(value: T)

  datatype Result<+T> = Success(value: T) | Failure(error: Error) {
    predicate IsFailure() { Failure? }

    function PropagateFailure<U>(): Result<U>
      requires Failure?
    {
      Failure(error)
    }

    function Extract(): T
      requires Success?
    {
      value
    }
  }

  /** The exceptions of the C++ code, one constructor per distinct throw site kind. */
  datatype Error =
    | ParameterNotFound(name: string)   // runtime_error: a message parameter that was never set
    | MissingField(name: string)        // runtime_error: serialising a message with a listed field unset
    | EmptyValue                        // out_of_range: first character of an empty parameter value
    | NotANumber                        // invalid_argument: no digits where stoi/stod expects a number
    | NumberOutOfRange                  // out_of_range: stoi result does not fit in a 32-bit int
    | UnknownSymbol                     // runtime_error: Add for a symbol the buy book does not know
    | UnroutedSymbol                    // out_of_range: the router's engineMap.at for a symbol no engine owns
    | OrderIdNotFound                   // runtime_error: Cancel for an id absent from the id index
    | OrderNotInQueue                   // runtime_error: Cancel whose order is missing from its level
    | UnexpectedSide                    // runtime_error: side tag other than 'B' or 'S'
    | UnexpectedMessageType             // runtime_error: message type other than 'A', 'X', 'P'
    | InvalidLength                     // invalid_argument: base-36 counter not 12 characters long
    | InvalidDigit                      // invalid_argument: character outside 0-9A-Z in the counter
    | Base36Overflow                    // overflow_error: counter already at ZZZZZZZZZZZZ
}
