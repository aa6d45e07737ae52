/**
 * The lexer: one left-to-right scan of a C string that appends tokens to a
 * fixed table of MaxTokens slots.
 *
 * The specification is the function Lex, built from NextLexeme (what the
 * branch chain of the scan loop does at one position) and LexFrom (the scan
 * loop itself). Tokenize is the imperative scan, with the table as a class,
 * and is proved to compute Lex.
 */
module Lexer {
  import opened JsonTypes

  /** Longest accepted input, in characters. */
  const JsonLimit: nat := 256
  /** Number of slots in the token table. */
  const MaxTokens: nat := 50

  /**
   * is_whitespace: space, tab, line feed and carriage return. None of them is
   * a digit, a minus sign or a character that stops the scan, so the branch
   * chain never has to choose between whitespace and another lexeme.
   */
  predicate IsWhitespace(c: char): (b: bool)
    ensures b ==> !IsNumber(c) && c != '-' && c != '"' && c != '*' && c != '\0'
  {
    c == ' ' || c == '\t' || c == '\n' || c == '\r'
  }

  /** is_number: exactly the ten decimal digits. */
  predicate IsNumber(c: char): (b: bool)
    ensures b <==> c in "0123456789"
  {
    '0' <= c <= '9'
  }

  /**
   * The character the C code reads at index i: the string's own characters,
   * then the NUL terminator.
   */
  function CharAt(s: string, i: nat): (c: char)
    ensures i < |s| ==> c == s[i]
    ensures i >= |s| ==> c == '\0'
  {
    if i < |s| then s[i] else '\0'
  }

  /** strlen: the number of characters before the first NUL. */
  function StrLen(s: string): (n: nat)
    ensures n <= |s|
    ensures forall i :: 0 <= i < n ==> s[i] != '\0'
    ensures n < |s| ==> s[n] == '\0'
  {
    if |s| == 0 || s[0] == '\0' then 0 else 1 + StrLen(s[1..])
  }

  /** The top-level scan stops at a star or at the terminator. */
  predicate AtStop(input: string, pos: nat) {
    CharAt(input, pos) == '*' || CharAt(input, pos) == '\0'
  }

  /** The characters that end a string lexeme. */
  predicate EndsString(c: char) {
    c == '"' || c == '*' || c == '\0'
  }

  /** The characters a number lexeme is made of. */
  predicate InNumber(c: char) {
    IsNumber(c) || c == '.'
  }

  /** The index of the first string terminator at or after p. */
  function StringEnd(input: string, p: nat): (e: nat)
    requires p <= |input|
    ensures p <= e <= |input|
    ensures EndsString(CharAt(input, e))
    ensures forall k :: p <= k < e ==> !EndsString(input[k])
    decreases |input| - p
  {
    if EndsString(CharAt(input, p)) then p else StringEnd(input, p + 1)
  }

  /** The index of the first character at or after p that is neither a digit nor a dot. */
  function NumberEnd(input: string, p: nat): (e: nat)
    requires p <= |input|
    ensures p <= e <= |input|
    ensures !InNumber(CharAt(input, e))
    ensures forall k :: p <= k < e ==> InNumber(input[k])
    decreases |input| - p
  {
    if !InNumber(CharAt(input, p)) then p else NumberEnd(input, p + 1)
  }

  /** What one pass of the scan loop does at one position. */
  datatype Lexeme =
    | Emit(tok: Token, next: nat)  // append tok, continue at next
    | Skip(next: nat)              // whitespace: continue at next
    | Bad(c: char)                 // no rule matches c

  /**
   * The branch chain of the scan loop at pos. A string that meets the end of
   * the input emits what it collected and leaves the position at the end, so
   * that the scan stops there; any other terminator of a string, an embedded
   * NUL included, is stepped over.
   */
  function NextLexeme(input: string, pos: nat): (l: Lexeme)
    requires pos < |input| && !AtStop(input, pos)
    ensures l.Skip? ==> pos < l.next <= |input|
    ensures l.Emit? ==> pos <= l.next <= |input|
    ensures l.Emit? && l.next == pos ==> input[pos] == '-' && l.tok == Token(Number, "")
  {
    var c := input[pos];
    if c == '{' then Emit(Punct(LeftBrace), pos + 1)
    else if c == '}' then Emit(Punct(RightBrace), pos + 1)
    else if c == '[' then Emit(Punct(LeftBracket), pos + 1)
    else if c == ']' then Emit(Punct(RightBracket), pos + 1)
    else if c == ':' then Emit(Punct(Colon), pos + 1)
    else if c == ',' then Emit(Punct(Comma), pos + 1)
    else if c == '"' then
      var e := StringEnd(input, pos + 1);
      Emit(Token(String, input[pos + 1..e]), if e == |input| then e else e + 1)
    else if IsWhitespace(c) then Skip(pos + 1)
    else if IsNumber(c) || c == '-' then
      var e := NumberEnd(input, pos);
      Emit(Token(Number, input[pos..e]), e)
    else if pos + 4 <= |input| && input[pos..pos + 4] == "null" then
      Emit(Token(Null, "null"), pos + 4)
    else Bad(c)
  }

  /**
   * The scan loop from position pos with the tokens toks already in the
   * table. It terminates because every pass either appends a token or
   * advances the position.
   */
  function LexFrom(input: string, pos: nat, toks: seq<Token>): (r: Result<seq<Token>>)
    requires pos <= |input| && |toks| <= MaxTokens
    ensures r.Ok? ==> toks <= r.value && |r.value| <= MaxTokens
    ensures r.Err? ==> r.error == TokenLimit || r.error.UnknownChar?
    decreases MaxTokens - |toks|, |input| - pos
  {
    if AtStop(input, pos) then Ok(toks)
    else match NextLexeme(input, pos)
      case Skip(next) => LexFrom(input, next, toks)
      case Emit(t, next) =>
        if |toks| >= MaxTokens then Err(TokenLimit)
        else LexFrom(input, next, toks + [t])
      case Bad(c) => Err(UnknownChar(c))
  }

  /**
   * The whole lexer: the length check, then the scan from an empty table.
   * An input whose string is too long fails before anything is scanned, and
   * a success never holds more tokens than the table has slots.
   */
  function Lex(input: string): (r: Result<seq<Token>>)
    ensures StrLen(input) > JsonLimit <==> r == Err(InputTooLarge)
    ensures r.Ok? ==> |r.value| <= MaxTokens
  {
    if StrLen(input) > JsonLimit then Err(InputTooLarge)
    else LexFrom(input, 0, [])
  }

  /** The fixed-size token table and its fill count. */
  class TokenTable {
    var slots: array<Token>
    var count: nat

    ghost predicate Valid()
      reads this
    {
      slots.Length == MaxTokens && count <= MaxTokens
    }

    /** The tokens appended so far. */
    function Contents(): seq<Token>
      reads this, slots
      requires Valid()
    {
      slots[..count]
    }

    constructor ()
      ensures Valid() && fresh(slots) && Contents() == []
    {
      slots := new Token[MaxTokens];
      count := 0;
    }

    /**
     * append_token: refuses when the table is full, otherwise writes the
     * token into the next slot and bumps the count.
     */
    method Append(kind: TokenKind, text: string) returns (ok: bool)
      requires Valid()
      modifies this, slots
      ensures Valid() && slots == old(slots)
      ensures ok <==> old(count) < MaxTokens
      ensures ok ==> count == old(count) + 1
      ensures Contents() == if ok then old(Contents()) + [Token(kind, text)] else old(Contents())
    {
      if count >= MaxTokens {
        return false;
      }
      slots[count] := Token(kind, text);
      count := count + 1;
      ok := true;
    }
  }

  /** One pass of the scan loop that appends a token. */
  lemma EmitStep(input: string, pos: nat, toks: seq<Token>, t: Token, next: nat)
    requires pos < |input| && !AtStop(input, pos) && |toks| <= MaxTokens
    requires NextLexeme(input, pos) == Emit(t, next)
    ensures next <= |input|
    ensures LexFrom(input, pos, toks) ==
      if |toks| >= MaxTokens then Err(TokenLimit) else LexFrom(input, next, toks + [t])
  {
  }

  /** The inner loop of the string branch: find the string's terminator. */
  method ScanString(input: string, start: nat) returns (e: nat)
    requires start <= |input|
    ensures e == StringEnd(input, start)
  {
    e := start;
    while CharAt(input, e) != '"' && CharAt(input, e) != '*' && CharAt(input, e) != '\0'
      invariant start <= e <= |input|
      invariant StringEnd(input, e) == StringEnd(input, start)
      decreases |input| - e
    {
      e := e + 1;
    }
  }

  /** The inner loop of the number branch: find the end of the digit-and-dot run. */
  method ScanNumber(input: string, start: nat) returns (e: nat)
    requires start <= |input|
    ensures e == NumberEnd(input, start)
  {
    e := start;
    while IsNumber(CharAt(input, e)) || CharAt(input, e) == '.'
      invariant start <= e <= |input|
      invariant NumberEnd(input, e) == NumberEnd(input, start)
      decreases |input| - e
    {
      e := e + 1;
    }
  }

  /** One pass of the scan loop's branch chain, at a position that is not a stop. */
  method ScanLexeme(input: string, pos: nat) returns (l: Lexeme)
    requires pos < |input| && !AtStop(input, pos)
    ensures l == NextLexeme(input, pos)
  {
    var ch := input[pos];
    if ch == '{' {
      l := Emit(Token(LeftBrace, "{"), pos + 1);
    } else if ch == '}' {
      l := Emit(Token(RightBrace, "}"), pos + 1);
    } else if ch == '[' {
      l := Emit(Token(LeftBracket, "["), pos + 1);
    } else if ch == ']' {
      l := Emit(Token(RightBracket, "]"), pos + 1);
    } else if ch == ':' {
      l := Emit(Token(Colon, ":"), pos + 1);
    } else if ch == ',' {
      l := Emit(Token(Comma, ","), pos + 1);
    } else if ch == '"' {
      var e := ScanString(input, pos + 1);
      l := Emit(Token(String, input[pos + 1..e]), if e == |input| then e else e + 1);
    } else if IsWhitespace(ch) {
      l := Skip(pos + 1);
    } else if IsNumber(ch) || ch == '-' {
      var e := ScanNumber(input, pos);
      l := Emit(Token(Number, input[pos..e]), e);
    } else if pos + 4 <= |input| && input[pos..pos + 4] == "null" {
      l := Emit(Token(Null, "null"), pos + 4);
    } else {
      l := Bad(ch);
    }
  }

  /** The lexer as the original runs it: a scan loop over a fresh token table. */
  method Tokenize(input: string) returns (r: Result<seq<Token>>)
    ensures r == Lex(input)
  {
    if StrLen(input) > JsonLimit {
      return Err(InputTooLarge);
    }
    var table := new TokenTable();
    var pos: nat := 0;
    while CharAt(input, pos) != '*' && CharAt(input, pos) != '\0'
      invariant pos <= |input|
      invariant table.Valid() && fresh(table) && fresh(table.slots)
      invariant LexFrom(input, pos, table.Contents()) == LexFrom(input, 0, [])
      decreases MaxTokens - table.count, |input| - pos
    {
      var l := ScanLexeme(input, pos);
      match l
      case Bad(c) =>
        return Err(UnknownChar(c));
      case Skip(next) =>
        pos := next;
      case Emit(tok, next) =>
        EmitStep(input, pos, table.Contents(), tok, next);
        var ok := table.Append(tok.kind, tok.text);
        if !ok {
          return Err(TokenLimit);
        }
        pos := next;
    }
    r := Ok(table.Contents());
  }
}
