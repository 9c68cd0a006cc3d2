/** The exceptions the interpreter can raise or catch, and the two wrappers
    every operation of the model returns its answer in. */
module Errors {

  datatype Option<T> = None | Some(value: T)

  /** One constructor per kind of Python exception the core can meet. */
  datatype Error =
    | NoSection(section: string)                  // ConfigParser.NoSectionError
    | NoOption(section: string, option: string)   // ConfigParser.NoOptionError
    | DuplicateSection(section: string)           // ConfigParser.DuplicateSectionError
    | InvalidSectionName(section: string)         // ValueError from add_section('default')
    | EmptyPop                                    // IndexError: pop from empty list
    | IndexOutOfRange                             // IndexError: list index out of range
    | NoClosingQuotation                          // ValueError from shlex
    | NoEscapedCharacter                          // ValueError from shlex
    | InvalidLiteral(text: string)                // ValueError from int()
    | EvalFailed(piece: string)                   // SyntaxError from eval('') of an ALG piece
    | BackendFailed(statement: string)            // any exception of cursor.execute
    | OutOfFuel                                   // not a Python exception: the model's step bound ran out

  /** A value, or the exception that was raised instead. */
  datatype Result<T> = Ok(value: T) | Err(error: Error)
}
