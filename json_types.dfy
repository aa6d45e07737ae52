/**
 * The data model shared by the lexer and the object parser: token kinds,
 * tokens, tagged values and the error kinds that replace the original's
 * diagnostic-and-exit paths.
 */
module JsonTypes {

  datatype Option<+T> = None | Some(value: T)

  /** The eleven token kinds; True and False are declared but never produced. */
  datatype TokenKind =
    | LeftBrace | RightBrace | LeftBracket | RightBracket
    | Comma | Colon | String | Number | Null | True | False

  /** A token: its kind and the text it was made from. */
  datatype Token = Token(kind: TokenKind, text: string)

  /** The three value tags. */
  datatype ValueType = StringType | IntType | NullType

  /**
   * The active member of the value union. A string payload is a C pointer
   * that is NULL in a zero-initialised value, hence the Option.
   */
  datatype Payload =
    | StringPayload(str: Option<string>)
    | IntPayload(integer: int)
    | NullPayload

  /** A value holds one payload and one key; the key is NULL until a pair is parsed. */
  datatype Value = Value(payload: Payload, key: Option<string>) {
    function Type(): ValueType {
      match payload
      case StringPayload(_) => StringType
      case IntPayload(_) => IntType
      case NullPayload => NullType
    }
  }

  /** The zero-initialised value `{ 0 }`: tag 0 is the string tag, every pointer NULL. */
  const Zero: Value := Value(StringPayload(None), None)

  /** Which structural check of the object parser failed. */
  datatype SyntaxWhich =
    | ExpectedOpenBrace
    | ExpectedStringKey
    | ExpectedColon
    | ExpectedCommaOrClose
    | EndOfTokens  // the parser needed a token beyond the last one

  datatype Error =
    | InputTooLarge
    | TokenLimit
    | UnknownChar(c: char)
    | UnexpectedTokenType(kind: TokenKind)
    | SyntaxError(which: SyntaxWhich)

  datatype Result<+T> = Ok(value: T) | Err(error: Error)

  /** Punctuation kinds, whose text is a single fixed character. */
  predicate IsPunctuation(k: TokenKind) {
    k in {LeftBrace, RightBrace, LeftBracket, RightBracket, Comma, Colon}
  }

  /** The text the lexer gives a punctuation token. */
  function Punctuation(k: TokenKind): (s: string)
    requires IsPunctuation(k)
    ensures |s| == 1
  {
    match k
    case LeftBrace => "{"
    case RightBrace => "}"
    case LeftBracket => "["
    case RightBracket => "]"
    case Comma => ","
    case Colon => ":"
  }

  /** A punctuation token spelled the way the lexer spells it. */
  function Punct(k: TokenKind): (t: Token)
    requires IsPunctuation(k)
    ensures t.kind == k && |t.text| == 1
  {
    Token(k, Punctuation(k))
  }

  /** Punctuation tokens carry their own spelling; other tokens are unconstrained. */
  predicate Canonical(t: Token) {
    IsPunctuation(t.kind) ==> t.text == Punctuation(t.kind)
  }

  /** The kinds of token a value may be made from. */
  predicate IsScalar(k: TokenKind) {
    k == String || k == Number || k == Null
  }
}
