/**
 * What the object parser promises. The grammar it accepts is written out as
 * a generator of token sequences, ObjectTokens: an opening brace, pairs
 * `key : value` each followed by a comma except possibly the last, and a
 * closing brace. The parser accepts exactly those prefixes (for canonical
 * punctuation), returns the value of the LAST pair, and ends one past the
 * closing brace; the errors name the first check that fails.
 */
module ParserProperties {
  import opened JsonTypes
  import opened Lexer
  import opened Values
  import opened Parser
  import opened LexerProperties

  /** One key/value pair as it appears in the tokens. */
  datatype Pair = Pair(key: string, value: Token)

  predicate AllScalar(pairs: seq<Pair>) {
    forall k :: 0 <= k < |pairs| ==> IsScalar(pairs[k].value.kind)
  }

  /** `key : value` */
  function PairTokens(p: Pair): (r: seq<Token>)
    ensures |r| == 3
  {
    [Token(String, p.key), Punct(Colon), p.value]
  }

  /** `key : value ,` for every pair. */
  function CommaPairs(pairs: seq<Pair>): (r: seq<Token>)
    ensures |r| == 4 * |pairs|
  {
    if |pairs| == 0 then []
    else PairTokens(pairs[0]) + [Punct(Comma)] + CommaPairs(pairs[1..])
  }

  /** The pairs, comma-separated, with an optional comma after the last one. */
  function MemberTokens(pairs: seq<Pair>, trailingComma: bool): seq<Token> {
    if |pairs| == 0 then []
    else
      CommaPairs(pairs[..|pairs| - 1]) + PairTokens(pairs[|pairs| - 1])
      + (if trailingComma then [Punct(Comma)] else [])
  }

  /** A whole object: `{`, the members, `}`. */
  function ObjectTokens(pairs: seq<Pair>, trailingComma: bool): seq<Token> {
    [Punct(LeftBrace)] + MemberTokens(pairs, trailingComma) + [Punct(RightBrace)]
  }

  /** The value a pair leaves behind: its key and its converted payload. */
  function PairValue(p: Pair): Value
    requires IsScalar(p.value.kind)
  {
    Value(ParseValue(p.value).value.payload, Some(p.key))
  }

  /** The value left by a run of pairs over obj: the last pair's, or obj when there is none. */
  function Last(pairs: seq<Pair>, obj: Value): Value
    requires AllScalar(pairs)
  {
    if |pairs| == 0 then obj else PairValue(pairs[|pairs| - 1])
  }

  /** One pass of the loop of parse_object over a well-formed `key : value`. */
  lemma PairStep(tokens: seq<Token>, i: nat, obj: Value)
    requires i + 3 < |tokens|
    requires tokens[i].kind == String && tokens[i + 1].kind == Colon && IsScalar(tokens[i + 2].kind)
    ensures IsScalar(Pair(tokens[i].text, tokens[i + 2]).value.kind)
    ensures var obj' := PairValue(Pair(tokens[i].text, tokens[i + 2]));
      MembersAt(tokens, i, obj) ==
        if tokens[i + 3].kind == Comma then MembersAt(tokens, i + 4, obj')
        else if tokens[i + 3].kind == RightBrace then Ok(Parsed(obj', i + 4))
        else Err(SyntaxError(ExpectedCommaOrClose))
  {
  }

  /** Tokens equal to a pattern at an offset, one index at a time. */
  lemma SliceAt(tokens: seq<Token>, i: nat, m: seq<Token>, k: nat)
    requires i + |m| <= |tokens| && tokens[i..i + |m|] == m && k < |m|
    ensures tokens[i + k] == m[k]
  {
  }

  // ---------------------------------------------------------------------
  // Pairs followed by commas only overwrite the value
  // ---------------------------------------------------------------------

  lemma {:induction false} CommaPairsPrefix(tokens: seq<Token>, i: nat, pairs: seq<Pair>, obj: Value)
    requires AllScalar(pairs)
    requires i + 4 * |pairs| <= |tokens|
    requires tokens[i..i + 4 * |pairs|] == CommaPairs(pairs)
    ensures MembersAt(tokens, i, obj) == MembersAt(tokens, i + 4 * |pairs|, Last(pairs, obj))
    decreases |pairs|
  {
    if |pairs| > 0 {
      var p := CommaPairsHead(tokens, i, pairs);
      PairStep(tokens, i, obj);
      CommaPairsPrefix(tokens, i + 4, pairs[1..], PairValue(p));
    }
  }

  /** The first `key : value ,` of some comma pairs, and the pairs after it. */
  lemma CommaPairsHead(tokens: seq<Token>, i: nat, pairs: seq<Pair>) returns (p: Pair)
    requires AllScalar(pairs) && |pairs| > 0
    requires i + 4 * |pairs| <= |tokens|
    requires tokens[i..i + 4 * |pairs|] == CommaPairs(pairs)
    ensures p == pairs[0] && Pair(tokens[i].text, tokens[i + 2]) == p
    ensures tokens[i].kind == String && tokens[i + 1].kind == Colon && IsScalar(tokens[i + 2].kind)
    ensures tokens[i + 3] == Punct(Comma)
    ensures AllScalar(pairs[1..]) && tokens[i + 4..i + 4 * |pairs|] == CommaPairs(pairs[1..])
    ensures forall o :: Last(pairs[1..], PairValue(p)) == Last(pairs, o)
  {
    p := pairs[0];
    var m := CommaPairs(pairs);
    assert tokens[i] == m[0] == Token(String, p.key);
    assert tokens[i + 1] == m[1] == Punct(Colon);
    assert tokens[i + 2] == m[2] == p.value;
    assert tokens[i + 3] == m[3] == Punct(Comma);
    assert IsScalar(pairs[0].value.kind);
    assert tokens[i + 4..i + 4 * |pairs|] == m[4..];
    forall k | 0 <= k < |pairs[1..]| ensures IsScalar(pairs[1..][k].value.kind) {
      assert pairs[1..][k] == pairs[k + 1];
    }
    if |pairs| > 1 {
      assert pairs[1..][|pairs| - 2] == pairs[|pairs| - 1];
    }
  }

  // ---------------------------------------------------------------------
  // Completeness: every generated object parses to its last pair
  // ---------------------------------------------------------------------

  /** A slice equal to a concatenation splits into two slices. */
  lemma SplitSlice(tokens: seq<Token>, i: nat, a: seq<Token>, b: seq<Token>)
    requires i + |a| + |b| <= |tokens| && tokens[i..i + |a| + |b|] == a + b
    ensures tokens[i..i + |a|] == a
    ensures tokens[i + |a|..i + |a| + |b|] == b
  {
    assert tokens[i..i + |a|] == (a + b)[..|a|];
    assert tokens[i + |a|..i + |a| + |b|] == (a + b)[|a|..];
  }

  /** The tail of a member list: the last pair, its optional comma and the closing brace. */
  function Tail(p: Pair, tc: bool): (t: seq<Token>)
    ensures |t| == if tc then 5 else 4
  {
    PairTokens(p) + (if tc then [Punct(Comma)] else []) + [Punct(RightBrace)]
  }

  /** The last pair, its optional comma and the closing brace, from j to n. */
  lemma LastPairComplete(tokens: seq<Token>, j: nat, n: nat, p: Pair, tc: bool, o: Value)
    requires IsScalar(p.value.kind)
    requires n == j + |Tail(p, tc)| <= |tokens| && tokens[j..n] == Tail(p, tc)
    ensures MembersAt(tokens, j, o) == Ok(Parsed(PairValue(p), n))
  {
    var t := Tail(p, tc);
    SliceAt(tokens, j, t, 0);
    SliceAt(tokens, j, t, 1);
    SliceAt(tokens, j, t, 2);
    SliceAt(tokens, j, t, 3);
    PairStep(tokens, j, o);
    if tc {
      SliceAt(tokens, j, t, 4);
    }
  }

  /** Comma pairs from i to j, then the tail from j to n. */
  lemma FrontThenLast(tokens: seq<Token>, i: nat, j: nat, n: nat, front: seq<Pair>, p: Pair, tc: bool, obj: Value)
    requires AllScalar(front) && IsScalar(p.value.kind)
    requires j == i + 4 * |front| && n == j + |Tail(p, tc)| <= |tokens|
    requires tokens[i..j] == CommaPairs(front)
    requires tokens[j..n] == Tail(p, tc)
    ensures MembersAt(tokens, i, obj) == Ok(Parsed(PairValue(p), n))
  {
    CommaPairsPrefix(tokens, i, front, obj);
    LastPairComplete(tokens, j, n, p, tc, Last(front, obj));
  }

  /** A non-empty member list is comma pairs followed by its tail. */
  lemma FrontAndLast(pairs: seq<Pair>, tc: bool, obj: Value) returns (front: seq<Pair>, p: Pair)
    requires AllScalar(pairs) && |pairs| > 0
    ensures AllScalar(front) && IsScalar(p.value.kind)
    ensures Last(pairs, obj) == PairValue(p) && |front| == |pairs| - 1
    ensures MemberTokens(pairs, tc) + [Punct(RightBrace)] == CommaPairs(front) + Tail(p, tc)
    ensures |MemberTokens(pairs, tc)| + 1 == 4 * |front| + |Tail(p, tc)|
  {
    front, p := pairs[..|pairs| - 1], pairs[|pairs| - 1];
    forall k | 0 <= k < |front| ensures IsScalar(front[k].value.kind) {
      assert front[k] == pairs[k];
    }
  }

  lemma MembersComplete(tokens: seq<Token>, i: nat, pairs: seq<Pair>, tc: bool, obj: Value)
    requires AllScalar(pairs)
    requires i + |MemberTokens(pairs, tc)| < |tokens|
    requires tokens[i..i + |MemberTokens(pairs, tc)| + 1] == MemberTokens(pairs, tc) + [Punct(RightBrace)]
    ensures MembersAt(tokens, i, obj) == Ok(Parsed(Last(pairs, obj), i + |MemberTokens(pairs, tc)| + 1))
  {
    if |pairs| == 0 {
      SliceAt(tokens, i, [Punct(RightBrace)], 0);
    } else {
      NonEmptyComplete(tokens, i, i + |MemberTokens(pairs, tc)| + 1, pairs, tc, obj);
    }
  }

  /** MembersComplete for at least one pair, with the slice ending at n. */
  lemma NonEmptyComplete(tokens: seq<Token>, i: nat, n: nat, pairs: seq<Pair>, tc: bool, obj: Value)
    requires AllScalar(pairs) && |pairs| > 0
    requires i <= n <= |tokens| && tokens[i..n] == MemberTokens(pairs, tc) + [Punct(RightBrace)]
    ensures MembersAt(tokens, i, obj) == Ok(Parsed(Last(pairs, obj), n))
  {
    var front, p, j := SplitMembers(tokens, i, n, pairs, tc, obj);
    FrontThenLast(tokens, i, j, n, front, p, tc, obj);
  }

  /** The slice of a non-empty member list, cut before its last pair. */
  lemma SplitMembers(tokens: seq<Token>, i: nat, n: nat, pairs: seq<Pair>, tc: bool, obj: Value)
    returns (front: seq<Pair>, p: Pair, j: nat)
    requires AllScalar(pairs) && |pairs| > 0
    requires i <= n <= |tokens| && tokens[i..n] == MemberTokens(pairs, tc) + [Punct(RightBrace)]
    ensures AllScalar(front) && IsScalar(p.value.kind) && Last(pairs, obj) == PairValue(p)
    ensures j == i + 4 * |front| && n == j + |Tail(p, tc)|
    ensures tokens[i..j] == CommaPairs(front) && tokens[j..n] == Tail(p, tc)
  {
    front, p := FrontAndLast(pairs, tc, obj);
    j := i + 4 * |front|;
    SplitSlice(tokens, i, CommaPairs(front), Tail(p, tc));
  }

  /**
   * A generated object, followed by anything, parses to the value of its
   * last pair (to obj itself for `{}`), with a trailing comma accepted, and
   * the index ends one past the closing brace.
   */
  lemma ObjectComplete(pairs: seq<Pair>, tc: bool, rest: seq<Token>, obj: Value)
    requires AllScalar(pairs)
    ensures ObjectAt(ObjectTokens(pairs, tc) + rest, 0, obj)
         == Ok(Parsed(Last(pairs, obj), |ObjectTokens(pairs, tc)|))
  {
    var tokens := ObjectTokens(pairs, tc) + rest;
    var m := MemberTokens(pairs, tc);
    assert tokens[0] == Punct(LeftBrace);
    assert tokens[1..1 + |m| + 1] == m + [Punct(RightBrace)];
    MembersComplete(tokens, 1, pairs, tc, obj);
  }

  // ---------------------------------------------------------------------
  // Soundness: whatever parses is a generated object
  // ---------------------------------------------------------------------

  /**
   * When the loop at i accepts and i is not the closing brace, the tokens at
   * i are a well-formed pair followed by a comma or by the closing brace.
   */
  lemma PairShape(tokens: seq<Token>, i: nat, obj: Value) returns (p: Pair)
    requires MembersAt(tokens, i, obj).Ok? && tokens[i].kind != RightBrace
    requires forall k :: i <= k < |tokens| ==> Canonical(tokens[k])
    ensures IsScalar(p.value.kind) && i + 3 < |tokens|
    ensures tokens[i..i + 3] == PairTokens(p)
    ensures tokens[i + 3] == Punct(Comma) || tokens[i + 3] == Punct(RightBrace)
    ensures MembersAt(tokens, i, obj) ==
      if tokens[i + 3] == Punct(Comma) then MembersAt(tokens, i + 4, PairValue(p))
      else Ok(Parsed(PairValue(p), i + 4))
  {
    p := Pair(tokens[i].text, tokens[i + 2]);
    assert Canonical(tokens[i + 1]) && Canonical(tokens[i + 3]);
    PairStep(tokens, i, obj);
  }

  /** Putting a pair with its comma in front of a non-empty member list. */
  lemma ConsPair(p: Pair, ps: seq<Pair>, tc: bool, o: Value)
    requires IsScalar(p.value.kind) && AllScalar(ps) && |ps| > 0
    ensures AllScalar([p] + ps)
    ensures MemberTokens([p] + ps, tc) == PairTokens(p) + [Punct(Comma)] + MemberTokens(ps, tc)
    ensures Last([p] + ps, o) == Last(ps, PairValue(p))
  {
    var pairs := [p] + ps;
    assert pairs[..|pairs| - 1] == [p] + ps[..|ps| - 1];
    assert ([p] + ps[..|ps| - 1])[1..] == ps[..|ps| - 1];
    assert pairs[|pairs| - 1] == ps[|ps| - 1];
    forall k | 0 <= k < |pairs| ensures IsScalar(pairs[k].value.kind) {
      if k > 0 { assert pairs[k] == ps[k - 1]; }
    }
  }

  /** The slice from i to n when it is a pair, a comma and then members ending in `}`. */
  lemma CommaThenMembers(tokens: seq<Token>, i: nat, n: nat, p: Pair, ps: seq<Pair>, tc: bool, o: Value)
    returns (pairs: seq<Pair>, tc': bool)
    requires i + 4 <= n <= |tokens| && IsScalar(p.value.kind) && AllScalar(ps)
    requires tokens[i..i + 3] == PairTokens(p) && tokens[i + 3] == Punct(Comma)
    requires tokens[i + 4..n] == MemberTokens(ps, tc) + [Punct(RightBrace)]
    ensures AllScalar(pairs)
    ensures tokens[i..n] == MemberTokens(pairs, tc') + [Punct(RightBrace)]
    ensures Last(pairs, o) == Last(ps, PairValue(p))
  {
    SliceSplit4(tokens, i, n);
    if |ps| == 0 {
      pairs, tc' := [p], true;
      SinglePair(p, true);
    } else {
      pairs, tc' := [p] + ps, tc;
      ConsPair(p, ps, tc, o);
    }
  }

  /** A slice cut after a pair and the token that follows it. */
  lemma SliceSplit4(tokens: seq<Token>, i: nat, n: nat)
    requires i + 4 <= n <= |tokens|
    ensures tokens[i..n] == tokens[i..i + 3] + [tokens[i + 3]] + tokens[i + 4..n]
  {
  }

  /** The tokens of a single pair, with or without its trailing comma. */
  lemma SinglePair(p: Pair, tc: bool)
    ensures MemberTokens([p], tc) == PairTokens(p) + (if tc then [Punct(Comma)] else [])
  {
    assert [p][..0] == [];
  }

  /** The slice from i to n when it is a last pair and `}`. */
  lemma PairThenClose(tokens: seq<Token>, i: nat, n: nat, p: Pair)
    requires i + 4 == n <= |tokens|
    requires tokens[i..i + 3] == PairTokens(p) && tokens[i + 3] == Punct(RightBrace)
    ensures tokens[i..n] == MemberTokens([p], false) + [Punct(RightBrace)]
  {
    SinglePair(p, false);
    assert tokens[i..n] == tokens[i..i + 3] + [tokens[i + 3]];
  }

  /** The slice at a closing brace. */
  lemma CloseOnly(tokens: seq<Token>, i: nat, obj: Value)
    requires i < |tokens| && tokens[i].kind == RightBrace && Canonical(tokens[i])
    ensures MembersAt(tokens, i, obj) == Ok(Parsed(obj, i + 1))
    ensures tokens[i..i + 1] == MemberTokens([], false) + [Punct(RightBrace)]
  {
  }

  lemma {:induction false} MembersSound(tokens: seq<Token>, i: nat, obj: Value) returns (pairs: seq<Pair>, tc: bool)
    requires MembersAt(tokens, i, obj).Ok?
    requires forall k :: i <= k < |tokens| ==> Canonical(tokens[k])
    ensures AllScalar(pairs)
    ensures tokens[i..MembersAt(tokens, i, obj).value.next] == MemberTokens(pairs, tc) + [Punct(RightBrace)]
    ensures MembersAt(tokens, i, obj).value.obj == Last(pairs, obj)
    decreases |tokens| - i
  {
    if tokens[i].kind == RightBrace {
      CloseOnly(tokens, i, obj);
      pairs, tc := [], false;
    } else {
      var p := PairShape(tokens, i, obj);
      if tokens[i + 3] == Punct(Comma) {
        var ps, tc0 := MembersSound(tokens, i + 4, PairValue(p));
        var n := MembersAt(tokens, i + 4, PairValue(p)).value.next;
        pairs, tc := CommaThenMembers(tokens, i, n, p, ps, tc0, obj);
      } else {
        PairThenClose(tokens, i, i + 4, p);
        pairs, tc := [p], false;
      }
    }
  }

  /**
   * Whatever parse_object accepts at index 0 starts with a generated object
   * that ends where the parse ends, and the value returned is that object's
   * last pair.
   */
  lemma ObjectSound(tokens: seq<Token>, obj: Value) returns (pairs: seq<Pair>, tc: bool)
    requires ObjectAt(tokens, 0, obj).Ok?
    requires forall k :: 0 <= k < |tokens| ==> Canonical(tokens[k])
    ensures AllScalar(pairs)
    ensures ObjectTokens(pairs, tc) <= tokens
    ensures ObjectAt(tokens, 0, obj).value == Parsed(Last(pairs, obj), |ObjectTokens(pairs, tc)|)
  {
    var r := ObjectAt(tokens, 0, obj).value;
    pairs, tc := MembersSound(tokens, 1, obj);
    assert Canonical(tokens[0]);
    PrefixOfObject(tokens, r.next, MemberTokens(pairs, tc));
  }

  /** `{` followed by a member slice ending at n is a prefix of the tokens. */
  lemma PrefixOfObject(tokens: seq<Token>, n: nat, m: seq<Token>)
    requires 1 <= n <= |tokens| && tokens[0] == Punct(LeftBrace)
    requires tokens[1..n] == m + [Punct(RightBrace)]
    ensures [Punct(LeftBrace)] + m + [Punct(RightBrace)] <= tokens
    ensures n == |m| + 2
  {
    assert tokens[..n] == [tokens[0]] + tokens[1..n];
  }

  // ---------------------------------------------------------------------
  // Errors: the first check that fails after well-formed `key : value ,` pairs
  // ---------------------------------------------------------------------

  /**
   * After `{` and any number of `key : value ,` pairs, the parser fails on:
   * no more tokens; a token that is neither `}` nor a string key; a key not
   * followed by a colon; a value token that is not a scalar; a value not
   * followed by a comma or `}`.
   */
  lemma FirstViolation(pairs: seq<Pair>, after: seq<Token>, obj: Value)
    requires AllScalar(pairs)
    ensures var r := ObjectAt([Punct(LeftBrace)] + CommaPairs(pairs) + after, 0, obj);
      && (|after| == 0 ==> r == Err(SyntaxError(EndOfTokens)))
      && (|after| > 0 && after[0].kind != RightBrace && after[0].kind != String
          ==> r == Err(SyntaxError(ExpectedStringKey)))
      && (|after| > 1 && after[0].kind == String && after[1].kind != Colon
          ==> r == Err(SyntaxError(ExpectedColon)))
      && (|after| > 2 && after[0].kind == String && after[1].kind == Colon && !IsScalar(after[2].kind)
          ==> r == Err(UnexpectedTokenType(after[2].kind)))
      && (|after| > 3 && after[0].kind == String && after[1].kind == Colon && IsScalar(after[2].kind)
          && after[3].kind != Comma && after[3].kind != RightBrace
          ==> r == Err(SyntaxError(ExpectedCommaOrClose)))
  {
    var tokens := [Punct(LeftBrace)] + CommaPairs(pairs) + after;
    var j := 1 + 4 * |pairs|;
    assert tokens[1..j] == CommaPairs(pairs);
    CommaPairsPrefix(tokens, 1, pairs, obj);
    assert tokens[j..] == after;
  }

  /** parse_object errors when the first token is not an opening brace. */
  lemma NoOpeningBrace(tokens: seq<Token>, index: nat, obj: Value)
    requires index < |tokens| && tokens[index].kind != LeftBrace
    ensures ObjectAt(tokens, index, obj) == Err(SyntaxError(ExpectedOpenBrace))
  {
  }

  // ---------------------------------------------------------------------
  // The whole pipeline
  // ---------------------------------------------------------------------

  /**
   * parse_json succeeds with v exactly when the lexer's tokens start with a
   * generated object, and v is then the value of that object's last pair
   * (the zeroed value for `{}`); tokens after the closing brace are ignored.
   * This direction: any success comes from such an object.
   */
  lemma ParseSound(input: string) returns (pairs: seq<Pair>, tc: bool, rest: seq<Token>)
    requires Parse(input).Ok?
    ensures AllScalar(pairs)
    ensures Lex(input) == Ok(ObjectTokens(pairs, tc) + rest)
    ensures Parse(input).value == Last(pairs, Zero)
  {
    var tokens := Lex(input).value;
    LexOutput(input);
    pairs, tc, rest := TokensSound(tokens);
  }

  /** ObjectSound at index 0 over a zeroed value, with the rest of the tokens split off. */
  lemma TokensSound(tokens: seq<Token>) returns (pairs: seq<Pair>, tc: bool, rest: seq<Token>)
    requires ObjectAt(tokens, 0, Zero).Ok?
    requires forall k :: 0 <= k < |tokens| ==> Canonical(tokens[k])
    ensures AllScalar(pairs)
    ensures tokens == ObjectTokens(pairs, tc) + rest
    ensures ObjectAt(tokens, 0, Zero).value.obj == Last(pairs, Zero)
  {
    pairs, tc := ObjectSound(tokens, Zero);
    rest := tokens[|ObjectTokens(pairs, tc)|..];
    assert tokens == ObjectTokens(pairs, tc) + rest;
  }

  /** The other direction: a generated object at the start of the tokens parses to its last pair. */
  lemma ParseComplete(input: string, pairs: seq<Pair>, tc: bool, rest: seq<Token>)
    requires AllScalar(pairs)
    requires Lex(input) == Ok(ObjectTokens(pairs, tc) + rest)
    ensures Parse(input) == Ok(Last(pairs, Zero))
  {
    ObjectComplete(pairs, tc, rest, Zero);
  }

  /** `{}` leaves obj unchanged, so parse_json of `{}` returns the zeroed value. */
  lemma EmptyObject(rest: seq<Token>, obj: Value)
    ensures ObjectAt([Punct(LeftBrace), Punct(RightBrace)] + rest, 0, obj) == Ok(Parsed(obj, 2))
  {
    ObjectComplete([], false, rest, obj);
    assert ObjectTokens([], false) == [Punct(LeftBrace), Punct(RightBrace)];
  }
}
