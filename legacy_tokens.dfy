/** Tokens of the earlier lexer (popsi.Lexer, popsi.Token). Its kinds differ from the
    current ones: there is no ARROW and no REC, ELSE, IN, TRUE or FALSE, while CHAR and
    INVALID exist but are never produced. Literal values are those of the current tokens. */
module LegacyTokens {
  import opened FilePosition
  import Tokens

  datatype LegacyKind =
    // one character
    | LParen | RParen | LBracket | RBracket | LCurly | RCurly
    | Colon | Semicolon | Hash | Comma
    // one character that may be the start of two
    | Equal | Percent | Bang | Plus | Minus | Slash | Star | Hat | Lesser | Greater | Dot
    // two characters
    | EqualEqual | PercentEqual | BangEqual | PlusEqual | MinusEqual | SlashEqual
    | StarEqual | HatEqual | LesserEqual | GreaterEqual | DotDot
    | Or | And
    // keywords
    | Fn | Let | For | While | Return | If | Debug
    // literals
    | Identifier | Integer | Float | String | Char
    | Eof
    | Invalid

  /** A token: its lexeme, its kind, the position just after the lexeme, its literal. */
  datatype LegacyToken = LegacyToken(lexeme: string, kind: LegacyKind, where: Position, literal: Tokens.Literal)
}
