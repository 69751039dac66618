/** Tokens produced by the current lexer (popsi.lexer.Lexer) and read by the parser. The
    kinds are exactly those the lexer and parser use. */
module Tokens {
  import opened FilePosition

  datatype TokenKind =
    // one character
    | LParen | RParen | LBracket | RBracket | LCurly | RCurly
    | Colon | Semicolon | Hash | Comma
    // one character that may be the start of two
    | Equal | Percent | Bang | Plus | Minus | Slash | Star | Hat | Lesser | Greater | Dot
    // two characters
    | EqualEqual | PercentEqual | BangEqual | PlusEqual | MinusEqual | SlashEqual
    | StarEqual | HatEqual | LesserEqual | GreaterEqual | DotDot | Arrow
    | Or | And
    // keywords
    | Fn | Rec | Let | For | While | Return | If | Debug | Else | In | True | False
    // literals
    | Identifier | Integer | Float | String
    | Eof

  /** The literal value a token carries. Floating-point values are kept as their text. */
  datatype Literal =
    | NoLiteral
    | IntLiteral(value: int)
    | FloatLiteral(digits: string)
    | StringLiteral(text: string)

  /** A token: its lexeme, its kind, the position just after the lexeme, its literal. */
  datatype Token = Token(lexeme: string, kind: TokenKind, where: Position, literal: Literal)
}
