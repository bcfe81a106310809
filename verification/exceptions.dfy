/** The exceptions the modelled code raises: the command errors of the
    framework, the library's own `Forbidden` and `PartyError`, and the
    built-in Python exceptions it raises directly. */
module Exceptions {
  import opened CommandErrors

  datatype Exc =
    | Command(error: Error)
    | TypeError(msg: string)
    | ValueError(msg: string)
    | NameError(msg: string)
    | KeyError(key: string)
    | IndexError(msg: string)
    | AttributeError(attribute: string)
    | Forbidden(msg: string)
    | PartyError(msg: string)
}
