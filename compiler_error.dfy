/** Diagnostics (popsi.CompilerError); their terminal rendering is not modelled. */
module Diagnostics {
  import opened FilePosition

  datatype ErrorKind = Lexical | Syntactic | Semantic

  datatype CompilerError = CompilerError(kind: ErrorKind, message: string, where: Position)
}
