/**
 * The object parser and the parse_json driver.
 *
 * ObjectAt is the specification of parse_object: it walks the tokens from an
 * index and overwrites the one key/payload slot of the value on every pair.
 * ParseObject is the imperative loop, proved to compute it. The value and
 * the token index, which the original updates through pointers, are passed
 * in and returned.
 */
module Parser {
  import opened JsonTypes
  import opened Lexer
  import opened Values

  /** The value left by the parse and the index one past what it consumed. */
  datatype Parsed = Parsed(obj: Value, next: nat)

  /** The token at index i, or the end-of-tokens syntax error. */
  function TokenAt(tokens: seq<Token>, i: nat): (r: Result<Token>)
    ensures r.Ok? <==> i < |tokens|
    ensures r.Ok? ==> r.value == tokens[i]
    ensures r.Err? ==> r.error == SyntaxError(EndOfTokens)
  {
    if i < |tokens| then Ok(tokens[i]) else Err(SyntaxError(EndOfTokens))
  }

  /**
   * The value after one pair: the key and then the tag and payload are
   * overwritten, so nothing of the previous value survives.
   */
  function Store(obj: Value, key: string, v: Value): (r: Value)
    ensures r == Value(v.payload, Some(key))
    ensures r.Type() == v.Type()
  {
    obj.(key := Some(key)).(payload := v.payload)
  }

  /**
   * The loop of parse_object from index i, which is either a closing brace
   * or the key of the next pair.
   */
  function MembersAt(tokens: seq<Token>, i: nat, obj: Value): (r: Result<Parsed>)
    ensures r.Ok? ==> i < r.value.next <= |tokens| && tokens[r.value.next - 1].kind == RightBrace
    decreases |tokens| - i
  {
    if i >= |tokens| then Err(SyntaxError(EndOfTokens))
    else if tokens[i].kind == RightBrace then Ok(Parsed(obj, i + 1))
    else if tokens[i].kind != String then Err(SyntaxError(ExpectedStringKey))
    else if i + 1 >= |tokens| then Err(SyntaxError(EndOfTokens))
    else if tokens[i + 1].kind != Colon then Err(SyntaxError(ExpectedColon))
    else if i + 2 >= |tokens| then Err(SyntaxError(EndOfTokens))
    else match ParseValue(tokens[i + 2])
      case Err(e) => Err(e)
      case Ok(v) =>
        var obj' := Store(obj, tokens[i].text, v);
        if i + 3 >= |tokens| then Err(SyntaxError(EndOfTokens))
        else if tokens[i + 3].kind == Comma then MembersAt(tokens, i + 4, obj')
        else if tokens[i + 3].kind == RightBrace then Ok(Parsed(obj', i + 4))
        else Err(SyntaxError(ExpectedCommaOrClose))
  }

  /** parse_object from index: an opening brace, then the loop. */
  function ObjectAt(tokens: seq<Token>, index: nat, obj: Value): (r: Result<Parsed>)
    ensures r.Ok? ==> index < |tokens| && tokens[index].kind == LeftBrace
    ensures r.Ok? ==> index + 1 < r.value.next <= |tokens| && tokens[r.value.next - 1].kind == RightBrace
    ensures r.Ok? ==> r.value.obj == obj || r.value.obj.key.Some?
  {
    if index >= |tokens| then Err(SyntaxError(EndOfTokens))
    else if tokens[index].kind != LeftBrace then Err(SyntaxError(ExpectedOpenBrace))
    else
      MembersKeepOrKey(tokens, index + 1, obj);
      MembersAt(tokens, index + 1, obj)
  }

  /** The member loop leaves either the value it was given or a value that carries a key. */
  lemma {:induction false} MembersKeepOrKey(tokens: seq<Token>, i: nat, obj: Value)
    ensures var r := MembersAt(tokens, i, obj);
      r.Ok? ==> r.value.obj == obj || r.value.obj.key.Some?
    decreases |tokens| - i
  {
    if i + 3 < |tokens| && tokens[i].kind == String && tokens[i + 1].kind == Colon
       && ParseValue(tokens[i + 2]).Ok? && tokens[i + 3].kind == Comma {
      MembersKeepOrKey(tokens, i + 4, Store(obj, tokens[i].text, ParseValue(tokens[i + 2]).value));
    }
  }

  /** parse_object as the original runs it: a loop advancing the token index. */
  method ParseObject(obj: Value, tokens: seq<Token>, index: nat) returns (r: Result<Parsed>)
    ensures r == ObjectAt(tokens, index, obj)
  {
    var tok := TokenAt(tokens, index);
    if tok.Err? {
      return Err(tok.error);
    }
    if tok.value.kind != LeftBrace {
      return Err(SyntaxError(ExpectedOpenBrace));
    }
    var i := index + 1;
    var cur := obj;
    while i >= |tokens| || tokens[i].kind != RightBrace
      invariant index < i <= |tokens|
      invariant MembersAt(tokens, i, cur) == MembersAt(tokens, index + 1, obj)
      decreases |tokens| - i
    {
      ghost var i0, cur0 := i, cur;
      var keyToken := TokenAt(tokens, i);
      if keyToken.Err? {
        return Err(keyToken.error);
      }
      if keyToken.value.kind != String {
        return Err(SyntaxError(ExpectedStringKey));
      }
      cur := cur.(key := Some(keyToken.value.text));
      i := i + 1;

      var colonToken := TokenAt(tokens, i);
      if colonToken.Err? {
        return Err(colonToken.error);
      }
      if colonToken.value.kind != Colon {
        return Err(SyntaxError(ExpectedColon));
      }
      i := i + 1;

      var valueToken := TokenAt(tokens, i);
      if valueToken.Err? {
        return Err(valueToken.error);
      }
      var parsed := ParseValue(valueToken.value);
      if parsed.Err? {
        return Err(parsed.error);
      }
      cur := cur.(payload := parsed.value.payload);
      assert cur == Store(cur0, tokens[i0].text, parsed.value);
      i := i + 1;

      var nextToken := TokenAt(tokens, i);
      if nextToken.Err? {
        return Err(nextToken.error);
      }
      if nextToken.value.kind == Comma {
        i := i + 1;
      } else if nextToken.value.kind != RightBrace {
        return Err(SyntaxError(ExpectedCommaOrClose));
      }
    }
    r := Ok(Parsed(cur, i + 1));
  }

  /**
   * parse_json: lex, then parse one object from index 0 into a zeroed value.
   * A success read at least the two braces, and returns either the zeroed
   * value itself (for `{}`) or a value that carries a key.
   */
  function Parse(input: string): (r: Result<Value>)
    ensures StrLen(input) > JsonLimit ==> r == Err(InputTooLarge)
    ensures r.Ok? ==> Lex(input).Ok? && |Lex(input).value| >= 2
    ensures r.Ok? ==> r.value == Zero || r.value.key.Some?
  {
    match Lex(input)
    case Err(e) => Err(e)
    case Ok(tokens) =>
      match ObjectAt(tokens, 0, Zero)
      case Err(e) => Err(e)
      case Ok(p) => Ok(p.obj)
  }

  /** parse_json as the original runs it. */
  method ParseJson(input: string) returns (r: Result<Value>)
    ensures r == Parse(input)
  {
    var tokens := Tokenize(input);
    if tokens.Err? {
      return Err(tokens.error);
    }
    var parsed := ParseObject(Zero, tokens.value, 0);
    if parsed.Err? {
      return Err(parsed.error);
    }
    r := Ok(parsed.value.obj);
  }
}
