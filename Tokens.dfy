/** The token vocabulary the scanner produces and the parser consumes. */
module Tokens {

  /** Every kind of token; a closed set, so EOF, ELSEIF, ELSE, END and BEGIN are all distinct kinds. */
  datatype TokenType =
    // Single-character tokens.
    | LeftParen | RightParen | LeftBrace | RightBrace
    | Comma | Dot | Minus | Plus | Slash | Star | Colon
    // One or two character tokens.
    | Bang | BangEqual
    | Equal | EqualEqual
    | Greater | GreaterEqual
    | Less | LessEqual
    // Literals.
    | Identifier | String | Number
    // Keywords.
    | And | Class | Else | False | Fun | For | If | Elseif | Nil | Or | Not | Xor | Var | End | Begin
    | Print | Println | Return | Super | This | True | While | In
    | Eof

  /** The literal a token carries (a Java `Object`): `null` for most tokens, the text of a string
      literal, or a number. A number is kept opaque, as the decimal text Java prints for it. */
  datatype Value =
    | NullValue
    | BoolValue(b: bool)
    | NumberValue(rendered: string)
    | StringValue(s: string)

  /** A token: immutable once built, so its fields are always the values it was built from. */
  datatype Token = Token(kind: TokenType, lexeme: string, literal: Value, line: int)

  /** The name Java prints for an enum constant. */
  function KindName(k: TokenType): string
  {
    match k
    case LeftParen => "LEFT_PAREN"
    case RightParen => "RIGHT_PAREN"
    case LeftBrace => "LEFT_BRACE"
    case RightBrace => "RIGHT_BRACE"
    case Comma => "COMMA"
    case Dot => "DOT"
    case Minus => "MINUS"
    case Plus => "PLUS"
    case Slash => "SLASH"
    case Star => "STAR"
    case Colon => "COLON"
    case Bang => "BANG"
    case BangEqual => "BANG_EQUAL"
    case Equal => "EQUAL"
    case EqualEqual => "EQUAL_EQUAL"
    case Greater => "GREATER"
    case GreaterEqual => "GREATER_EQUAL"
    case Less => "LESS"
    case LessEqual => "LESS_EQUAL"
    case Identifier => "IDENTIFIER"
    case String => "STRING"
    case Number => "NUMBER"
    case And => "AND"
    case Class => "CLASS"
    case Else => "ELSE"
    case False => "FALSE"
    case Fun => "FUN"
    case For => "FOR"
    case If => "IF"
    case Elseif => "ELSEIF"
    case Nil => "NIL"
    case Or => "OR"
    case Not => "NOT"
    case Xor => "XOR"
    case Var => "VAR"
    case End => "END"
    case Begin => "BEGIN"
    case Print => "PRINT"
    case Println => "PRINTLN"
    case Return => "RETURN"
    case Super => "SUPER"
    case This => "THIS"
    case True => "TRUE"
    case While => "WHILE"
    case In => "IN"
    case Eof => "EOF"
  }

  /** What Java's string concatenation prints for the literal object. */
  function LiteralText(v: Value): string
  {
    match v
    case NullValue => "null"
    case BoolValue(b) => if b then "true" else "false"
    case NumberValue(rendered) => rendered
    case StringValue(s) => s
  }

  /** `Token.toString`: kind, lexeme and literal joined by single spaces. */
  function ToString(t: Token): string
  {
    KindName(t.kind) + " " + t.lexeme + " " + LiteralText(t.literal)
  }

  /** The text before the first space (all of `s` when it has none). */
  function FirstWord(s: string): (w: string)
    ensures |w| <= |s| && w == s[..|w|]
  {
    if s == [] || s[0] == ' ' then [] else [s[0]] + FirstWord(s[1..])
  }

  /** The text after the first space (empty when there is none). */
  function AfterFirstSpace(s: string): (rest: string)
    ensures |rest| <= |s|
  {
    if s == [] then [] else if s[0] == ' ' then s[1..] else AfterFirstSpace(s[1..])
  }

  lemma {:induction false} SplitAtFirstSpace(a: string, b: string)
    requires ' ' !in a
    ensures FirstWord(a + " " + b) == a
    ensures AfterFirstSpace(a + " " + b) == b
  {
    if a != [] {
      assert (a + " " + b)[1..] == a[1..] + " " + b;
      assert a[0] in a;
      SplitAtFirstSpace(a[1..], b);
    }
  }

  lemma KindNameHasNoSpace(k: TokenType)
    ensures ' ' !in KindName(k)
  {
  }

  /** The first word of `toString` is the kind's name (a name never holds a space), and what follows
      the first space is the lexeme and the literal, again separated by one space. */
  lemma ToStringFields(t: Token)
    ensures FirstWord(ToString(t)) == KindName(t.kind)
    ensures AfterFirstSpace(ToString(t)) == t.lexeme + " " + LiteralText(t.literal)
  {
    KindNameHasNoSpace(t.kind);
    assert ToString(t) == KindName(t.kind) + " " + (t.lexeme + " " + LiteralText(t.literal));
    SplitAtFirstSpace(KindName(t.kind), t.lexeme + " " + LiteralText(t.literal));
  }
}
