/**
 * What the lexer promises: how each kind of character is scanned, the
 * token-limit outcome of a leading minus, the shape of every token it
 * returns, and the star that ends the top-level scan.
 */
module LexerProperties {
  import opened JsonTypes
  import opened Lexer

  // ---------------------------------------------------------------------
  // One pass of the scan loop, character class by character class
  // ---------------------------------------------------------------------

  /**
   * Each of { } [ ] : , appends one punctuation token whose text is that
   * character and moves on by one; on a full table the scan fails.
   */
  lemma PunctuationToken(input: string, pos: nat, toks: seq<Token>) returns (k: TokenKind)
    requires pos < |input| && input[pos] in "{}[]:," && |toks| <= MaxTokens
    ensures IsPunctuation(k) && Punctuation(k) == [input[pos]]
    ensures LexFrom(input, pos, toks) ==
      if |toks| == MaxTokens then Err(TokenLimit)
      else LexFrom(input, pos + 1, toks + [Token(k, [input[pos]])])
  {
    var c := input[pos];
    k := if c == '{' then LeftBrace else if c == '}' then RightBrace
      else if c == '[' then LeftBracket else if c == ']' then RightBracket
      else if c == ':' then Colon else Comma;
  }

  /** Space, tab, line feed and carriage return produce nothing and are skipped. */
  lemma WhitespaceSkipped(input: string, pos: nat, toks: seq<Token>)
    requires pos < |input| && IsWhitespace(input[pos]) && |toks| <= MaxTokens
    ensures LexFrom(input, pos, toks) == LexFrom(input, pos + 1, toks)
  {
  }

  /** The literal null appends a Null token and moves on by four. */
  lemma NullToken(input: string, pos: nat, toks: seq<Token>)
    requires pos + 4 <= |input| && input[pos..pos + 4] == "null" && |toks| <= MaxTokens
    ensures LexFrom(input, pos, toks) ==
      if |toks| == MaxTokens then Err(TokenLimit)
      else LexFrom(input, pos + 4, toks + [Token(Null, "null")])
  {
    assert input[pos] == "null"[0];
    assert NextLexeme(input, pos) == Emit(Token(Null, "null"), pos + 4);
  }

  /**
   * A string token holds exactly the characters after the opening quote up
   * to the first quote, star, NUL or end, with no escape processing; the
   * scan resumes after the terminator and stops at the end of the input.
   */
  lemma StringToken(input: string, pos: nat, toks: seq<Token>, e: nat)
    requires pos < |input| && input[pos] == '"' && |toks| <= MaxTokens
    requires pos < e <= |input| && EndsString(CharAt(input, e))
    requires forall k :: pos < k < e ==> !EndsString(input[k])
    ensures LexFrom(input, pos, toks) ==
      if |toks| == MaxTokens then Err(TokenLimit)
      else LexFrom(input, if e == |input| then e else e + 1, toks + [Token(String, input[pos + 1..e])])
  {
    StringEndIsFirst(input, pos + 1, e);
    EmitStep(input, pos, toks, Token(String, input[pos + 1..e]), if e == |input| then e else e + 1);
  }

  /** StringEnd is the first terminator: any index with that property is it. */
  lemma StringEndIsFirst(input: string, p: nat, e: nat)
    requires p <= e <= |input| && EndsString(CharAt(input, e))
    requires forall k :: p <= k < e ==> !EndsString(input[k])
    ensures StringEnd(input, p) == e
  {
  }

  /** NumberEnd is the end of the maximal run: any index with that property is it. */
  lemma NumberEndIsFirst(input: string, p: nat, e: nat)
    requires p <= e <= |input| && !InNumber(CharAt(input, e))
    requires forall k :: p <= k < e ==> InNumber(input[k])
    ensures NumberEnd(input, p) == e
  {
  }

  /** The number branch of the scan loop, for a digit or a minus sign. */
  lemma NumberLexeme(input: string, pos: nat)
    requires pos < |input| && (IsNumber(input[pos]) || input[pos] == '-')
    ensures NextLexeme(input, pos) == Emit(Token(Number, input[pos..NumberEnd(input, pos)]), NumberEnd(input, pos))
  {
    var c := input[pos];
    assert !(c in "{}[]:,\"") && !IsWhitespace(c);
  }

  /**
   * A number token starting at a digit holds the maximal run of digits and
   * dots, and the scan resumes right after the run.
   */
  lemma NumberToken(input: string, pos: nat, toks: seq<Token>, e: nat)
    requires pos < |input| && IsNumber(input[pos]) && |toks| <= MaxTokens
    requires pos < e <= |input| && !InNumber(CharAt(input, e))
    requires forall k :: pos <= k < e ==> InNumber(input[k])
    ensures LexFrom(input, pos, toks) ==
      if |toks| == MaxTokens then Err(TokenLimit)
      else LexFrom(input, e, toks + [Token(Number, input[pos..e])])
  {
    NumberEndIsFirst(input, pos, e);
    NumberLexeme(input, pos);
    EmitStep(input, pos, toks, Token(Number, input[pos..e]), e);
  }

  /**
   * A minus sign enters the number branch, collects nothing and does not
   * advance, so the scan appends empty number tokens until the table is full.
   */
  lemma {:induction false} MinusHitsTokenLimit(input: string, pos: nat, toks: seq<Token>)
    requires pos < |input| && input[pos] == '-' && |toks| <= MaxTokens
    ensures LexFrom(input, pos, toks) == Err(TokenLimit)
    decreases MaxTokens - |toks|
  {
    NumberLexeme(input, pos);
    assert NumberEnd(input, pos) == pos;
    if |toks| < MaxTokens {
      MinusHitsTokenLimit(input, pos, toks + [Token(Number, "")]);
    }
  }

  /** The characters that can start a lexeme. */
  predicate StartsLexeme(input: string, pos: nat)
    requires pos < |input|
  {
    var c := input[pos];
    c in "{}[]:,\"" || IsWhitespace(c) || IsNumber(c) || c == '-'
    || (pos + 4 <= |input| && input[pos..pos + 4] == "null")
  }

  /** Any other character, other than the star and the terminator, ends the scan with an error. */
  lemma UnknownCharRejected(input: string, pos: nat, toks: seq<Token>)
    requires pos < |input| && |toks| <= MaxTokens
    requires input[pos] != '*' && input[pos] != '\0' && !StartsLexeme(input, pos)
    ensures LexFrom(input, pos, toks) == Err(UnknownChar(input[pos]))
  {
  }

  /** In particular true and false are not literals: their first letter is rejected. */
  lemma BooleansRejected(input: string, pos: nat, toks: seq<Token>)
    requires pos < |input| && (input[pos] == 't' || input[pos] == 'f') && |toks| <= MaxTokens
    ensures LexFrom(input, pos, toks) == Err(UnknownChar(input[pos]))
  {
    UnknownCharRejected(input, pos, toks);
  }

  // ---------------------------------------------------------------------
  // The tokens the lexer returns
  // ---------------------------------------------------------------------

  /** The shape of a token the lexer can return. */
  predicate Lexical(t: Token) {
    if IsPunctuation(t.kind) then t.text == Punctuation(t.kind)
    else if t.kind == String then forall k :: 0 <= k < |t.text| ==> !EndsString(t.text[k])
    else if t.kind == Number then
      |t.text| > 0 && IsNumber(t.text[0]) && forall k :: 0 <= k < |t.text| ==> InNumber(t.text[k])
    else t.kind == Null && t.text == "null"
  }

  /** A lexeme that makes progress emits a lexical token. */
  lemma ProgressingLexemeIsLexical(input: string, pos: nat)
    requires pos < |input| && !AtStop(input, pos)
    requires NextLexeme(input, pos).Emit? && NextLexeme(input, pos).next > pos
    ensures Lexical(NextLexeme(input, pos).tok)
  {
    var c := input[pos];
    if c == '"' {
      var e := StringEnd(input, pos + 1);
      var text := input[pos + 1..e];
      forall k | 0 <= k < |text| ensures !EndsString(text[k]) {
        assert text[k] == input[pos + 1 + k];
      }
    } else if IsNumber(c) {
      var e := NumberEnd(input, pos);
      var text := input[pos..e];
      forall k | 0 <= k < |text| ensures InNumber(text[k]) {
        assert text[k] == input[pos + k];
      }
    }
  }

  lemma {:induction false} LexFromLexical(input: string, pos: nat, toks: seq<Token>)
    requires pos <= |input| && |toks| <= MaxTokens
    requires forall k :: 0 <= k < |toks| ==> Lexical(toks[k])
    ensures var r := LexFrom(input, pos, toks);
      r.Ok? ==> forall k :: 0 <= k < |r.value| ==> Lexical(r.value[k])
    decreases MaxTokens - |toks|, |input| - pos
  {
    if !AtStop(input, pos) {
      match NextLexeme(input, pos)
      case Skip(next) =>
        LexFromLexical(input, next, toks);
      case Emit(t, next) =>
        if |toks| < MaxTokens {
          if next == pos {
            MinusHitsTokenLimit(input, pos, toks);
          } else {
            ProgressingLexemeIsLexical(input, pos);
            LexFromLexical(input, next, toks + [t]);
          }
        }
      case Bad(_) =>
    }
  }

  /**
   * Every token of a successful lex is lexical: punctuation carries its own
   * character, a string holds no quote or star, a number is a non-empty run
   * of digits and dots starting with a digit, and a null reads "null". In
   * particular no True or False token is ever produced, and there are at
   * most MaxTokens tokens.
   */
  lemma LexOutput(input: string)
    requires Lex(input).Ok?
    ensures |Lex(input).value| <= MaxTokens
    ensures forall k :: 0 <= k < |Lex(input).value| ==> Lexical(Lex(input).value[k])
    ensures forall k :: 0 <= k < |Lex(input).value| ==> Canonical(Lex(input).value[k])
  {
    assert Lex(input) == LexFrom(input, 0, []);
    LexFromLexical(input, 0, []);
  }

  /** An input longer than the limit is rejected before any token is produced. */
  lemma TooLargeRejected(input: string)
    requires |input| > JsonLimit && '\0' !in input
    ensures Lex(input) == Err(InputTooLarge)
  {
    StrLenWithoutNul(input);
  }

  /** Without a NUL character, strlen is the length. */
  lemma StrLenWithoutNul(s: string)
    requires '\0' !in s
    ensures StrLen(s) == |s|
  {
  }

  // ---------------------------------------------------------------------
  // The star
  // ---------------------------------------------------------------------

  /**
   * The top-level scan from pos with tokens toks arrives at the loop head
   * at position k without failing first.
   */
  ghost predicate Reaches(input: string, pos: nat, toks: seq<Token>, k: nat)
    requires pos <= |input| && |toks| <= MaxTokens
    decreases MaxTokens - |toks|, |input| - pos
  {
    if pos == k then true
    else if AtStop(input, pos) then false
    else match NextLexeme(input, pos)
      case Skip(next) => Reaches(input, next, toks, k)
      case Emit(t, next) => |toks| < MaxTokens && Reaches(input, next, toks + [t], k)
      case Bad(_) => false
  }

  lemma {:induction false} ReachesForward(input: string, pos: nat, toks: seq<Token>, k: nat)
    requires pos <= |input| && |toks| <= MaxTokens
    requires Reaches(input, pos, toks, k)
    ensures pos <= k
    decreases MaxTokens - |toks|, |input| - pos
  {
    if pos != k {
      match NextLexeme(input, pos)
      case Skip(next) => ReachesForward(input, next, toks, k);
      case Emit(t, next) => ReachesForward(input, next, toks + [t], k);
    }
  }

  lemma {:induction false} StringEndCut(input: string, k: nat, p: nat)
    requires k < |input| && input[k] == '*' && p <= k
    ensures StringEnd(input[..k], p) == StringEnd(input, p)
    decreases k - p
  {
    if p < k {
      assert CharAt(input[..k], p) == CharAt(input, p);
      if !EndsString(input[p]) {
        StringEndCut(input, k, p + 1);
      }
    }
  }

  lemma {:induction false} NumberEndCut(input: string, k: nat, p: nat)
    requires k < |input| && input[k] == '*' && p <= k
    ensures NumberEnd(input[..k], p) == NumberEnd(input, p)
    decreases k - p
  {
    if p < k {
      assert CharAt(input[..k], p) == CharAt(input, p);
      if InNumber(input[p]) {
        NumberEndCut(input, k, p + 1);
      }
    }
  }

  /**
   * Before a star at k, a lexeme reads the same whether or not the input is
   * cut at k, except for a string that runs into the star itself.
   */
  lemma LexemeCut(input: string, k: nat, pos: nat)
    requires k < |input| && input[k] == '*' && pos < k && !AtStop(input, pos)
    ensures !AtStop(input[..k], pos)
    ensures NextLexeme(input[..k], pos) == NextLexeme(input, pos)
         || (NextLexeme(input, pos).Emit? && NextLexeme(input, pos).next == k + 1)
  {
    var c := input[pos];
    assert input[..k][pos] == c;
    if c == '"' {
      StringLexemeCut(input, k, pos);
    } else if IsNumber(c) || c == '-' {
      NumberLexemeCut(input, k, pos);
    } else if pos + 4 <= |input| && input[pos..pos + 4] == "null" {
      assert input[..k][pos..pos + 4] == input[pos..pos + 4];
    }
  }

  /** LexemeCut for a string lexeme: only a string closed by the star itself differs. */
  lemma StringLexemeCut(input: string, k: nat, pos: nat)
    requires k < |input| && input[k] == '*' && pos < k && input[pos] == '"'
    ensures !AtStop(input[..k], pos)
    ensures NextLexeme(input[..k], pos) == NextLexeme(input, pos)
         || (NextLexeme(input, pos).Emit? && NextLexeme(input, pos).next == k + 1)
  {
    var cut := input[..k];
    assert cut[pos] == '"';
    StringEndCut(input, k, pos + 1);
    var e := StringEnd(input, pos + 1);
    assert cut[pos + 1..e] == input[pos + 1..e];
    if e < k {
      assert CharAt(cut, e) == CharAt(input, e);
    }
  }

  /** LexemeCut for a number lexeme: the run stops before the star either way. */
  lemma NumberLexemeCut(input: string, k: nat, pos: nat)
    requires k < |input| && input[k] == '*' && pos < k && (IsNumber(input[pos]) || input[pos] == '-')
    ensures !AtStop(input[..k], pos)
    ensures NextLexeme(input[..k], pos) == NextLexeme(input, pos)
  {
    var cut := input[..k];
    assert cut[pos] == input[pos];
    NumberEndCut(input, k, pos);
    var e := NumberEnd(input, pos);
    assert cut[pos..e] == input[pos..e];
  }

  lemma {:induction false} StarCut(input: string, k: nat, pos: nat, toks: seq<Token>)
    requires k < |input| && input[k] == '*' && pos <= k && |toks| <= MaxTokens
    requires Reaches(input, pos, toks, k)
    ensures LexFrom(input, pos, toks) == LexFrom(input[..k], pos, toks)
    decreases MaxTokens - |toks|, |input| - pos
  {
    var cut := input[..k];
    if pos < k {
      LexemeCut(input, k, pos);
      match NextLexeme(input, pos)
      case Skip(next) =>
        ReachesForward(input, next, toks, k);
        StarCut(input, k, next, toks);
      case Emit(t, next) =>
        ReachesForward(input, next, toks + [t], k);
        StarCut(input, k, next, toks + [t]);
    }
  }

  lemma {:induction false} StrLenOfCut(s: string, k: nat)
    requires k <= |s|
    ensures StrLen(s[..k]) <= StrLen(s)
  {
    var n := StrLen(s);
    if n < k {
      assert s[..k][n] == '\0';
    }
  }

  /**
   * A star that the top-level scan reaches ends it: the tokens are exactly
   * those of the input cut at the star, whatever follows it.
   */
  lemma StarEndsScan(input: string, k: nat)
    requires k < |input| && input[k] == '*'
    requires Reaches(input, 0, [], k)
    ensures Lex(input) == if StrLen(input) > JsonLimit then Err(InputTooLarge) else Lex(input[..k])
  {
    StarCut(input, k, 0, []);
    StrLenOfCut(input, k);
  }

  /**
   * A NUL inside the input that ends a string is stepped over like a quote:
   * the scan goes on with the characters after it.
   */
  lemma EmbeddedNulInString()
    ensures Lex(['"', 'a', 'b', '\0', '}']) == Ok([Token(String, "ab"), Punct(RightBrace)])
  {
    var input := ['"', 'a', 'b', '\0', '}'];
    assert StrLen(input) <= JsonLimit;
    NulStringStep(input);
    CloseAfterNul(input);
  }

  /** The string of EmbeddedNulInString, stopped by the NUL at index 3. */
  lemma NulStringStep(input: string)
    requires input == ['"', 'a', 'b', '\0', '}']
    ensures LexFrom(input, 0, []) == LexFrom(input, 4, [Token(String, "ab")])
  {
    assert input[1..3] == "ab";
    StringToken(input, 0, [], 3);
    assert [] + [Token(String, input[1..3])] == [Token(String, "ab")];
  }

  /** The closing brace after the NUL of EmbeddedNulInString, then the end. */
  lemma CloseAfterNul(input: string)
    requires input == ['"', 'a', 'b', '\0', '}']
    ensures LexFrom(input, 4, [Token(String, "ab")]) == Ok([Token(String, "ab"), Punct(RightBrace)])
  {
    var str, rb := Token(String, "ab"), Punct(RightBrace);
    var k := PunctuationToken(input, 4, [str]);
    assert [str] + [Token(k, [input[4]])] == [str, rb];
    assert AtStop(input, 5);
  }

  /** A star inside a string ends the string and is skipped; the scan goes on after it. */
  lemma StarInsideString(input: string, pos: nat, toks: seq<Token>, e: nat)
    requires pos < e < |input| && input[pos] == '"' && input[e] == '*' && |toks| < MaxTokens
    requires forall k :: pos < k < e ==> !EndsString(input[k])
    ensures LexFrom(input, pos, toks) == LexFrom(input, e + 1, toks + [Token(String, input[pos + 1..e])])
  {
    StringToken(input, pos, toks, e);
  }
}
