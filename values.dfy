/**
 * Scalar conversion: parse_value and the C library's atoi that it calls on
 * number text.
 */
module Values {
  import opened JsonTypes
  import opened Lexer

  /** The characters C's isspace accepts in the "C" locale. */
  predicate IsSpace(c: char) {
    c == ' ' || c == '\t' || c == '\n' || c == '\U{B}' || c == '\U{C}' || c == '\r'
  }

  /** The length of the longest prefix of s made of digits. */
  function DigitRun(s: string): (n: nat)
    ensures n <= |s|
    ensures forall i :: 0 <= i < n ==> IsNumber(s[i])
    ensures n < |s| ==> !IsNumber(s[n])
  {
    if |s| == 0 || !IsNumber(s[0]) then 0 else 1 + DigitRun(s[1..])
  }

  /** The length of the longest prefix of s made of isspace characters. */
  function SpaceRun(s: string): (n: nat)
    ensures n <= |s|
    ensures forall i :: 0 <= i < n ==> IsSpace(s[i])
    ensures n < |s| ==> !IsSpace(s[n])
  {
    if |s| == 0 || !IsSpace(s[0]) then 0 else 1 + SpaceRun(s[1..])
  }

  /** The value of one decimal digit. */
  function DigitValue(c: char): (v: nat)
    requires IsNumber(c)
    ensures v < 10
  {
    (c as int) - ('0' as int)
  }

  /** The number a string of decimal digits denotes, most significant digit first. */
  function DecimalValue(d: string): nat
    requires forall i :: 0 <= i < |d| ==> IsNumber(d[i])
  {
    if |d| == 0 then 0
    else 10 * DecimalValue(d[..|d| - 1]) + DigitValue(d[|d| - 1])
  }

  /** The value of the leading digit run of s. */
  function LeadingValue(s: string): nat {
    DecimalValue(s[..DigitRun(s)])
  }

  /**
   * atoi: skip white space, take an optional sign, then the longest run of
   * digits; no digits gives 0. The C function's overflow on long runs is
   * undefined behaviour; here the integer is unbounded.
   */
  function Atoi(s: string): (r: int)
    ensures r < 0 ==> '-' in s
    ensures (forall i :: 0 <= i < |s| ==> !IsNumber(s[i])) ==> r == 0
  {
    var n := SpaceRun(s);
    var t := s[n..];
    NoDigitsNoValue(s, n);
    NoDigitsNoValue(s, n + 1);
    if |t| > 0 && t[0] == '-' then
      assert s[n] == '-';
      assert t[1..] == s[n + 1..];
      -(LeadingValue(t[1..]) as int)
    else if |t| > 0 && t[0] == '+' then
      assert t[1..] == s[n + 1..];
      LeadingValue(t[1..])
    else LeadingValue(t)
  }

  /** A string without digits has no leading digit run anywhere, so its value is 0. */
  lemma NoDigitsNoValue(s: string, j: nat)
    ensures j <= |s| && (forall i :: 0 <= i < |s| ==> !IsNumber(s[i])) ==> LeadingValue(s[j..]) == 0
  {
    if j < |s| {
      assert s[j..][0] == s[j];
    }
  }

  /**
   * parse_value: a string, number or null token becomes a value of the
   * matching tag with no key; any other kind is refused.
   */
  function ParseValue(tok: Token): (r: Result<Value>)
    ensures r.Ok? <==> IsScalar(tok.kind)
    ensures r.Err? ==> r.error == UnexpectedTokenType(tok.kind)
    ensures r.Ok? ==> r.value.key == None
    ensures r.Ok? && tok.kind == String ==> r.value.payload == StringPayload(Some(tok.text))
    ensures r.Ok? && tok.kind == Null ==> r.value.payload == NullPayload
    ensures r.Ok? && tok.kind == Number ==> r.value.payload.IntPayload?
  {
    match tok.kind
    case String => Ok(Value(StringPayload(Some(tok.text)), None))
    case Number => Ok(Value(IntPayload(Atoi(tok.text)), None))
    case Null => Ok(Value(NullPayload, None))
    case _ => Err(UnexpectedTokenType(tok.kind))
  }

  /** The decimal spelling of n, without leading zeros. */
  function Decimal(n: nat): (d: string)
    ensures |d| > 0
    ensures forall i :: 0 <= i < |d| ==> IsNumber(d[i])
  {
    var digit := ['0' + (n % 10) as char];
    if n < 10 then digit else Decimal(n / 10) + digit
  }

  /** DecimalValue reads back what Decimal writes. */
  lemma {:induction false} DecimalRoundTrip(n: nat)
    ensures DecimalValue(Decimal(n)) == n
  {
    var d := Decimal(n);
    if n >= 10 {
      DecimalRoundTrip(n / 10);
      assert d[..|d| - 1] == Decimal(n / 10);
    }
  }

  /** The leading digit run of d + rest is d when rest does not start with a digit. */
  lemma {:induction false} DigitRunOfPrefix(d: string, rest: string)
    requires forall i :: 0 <= i < |d| ==> IsNumber(d[i])
    requires |rest| == 0 || !IsNumber(rest[0])
    ensures DigitRun(d + rest) == |d|
  {
    if |d| > 0 {
      assert (d + rest)[1..] == d[1..] + rest;
      DigitRunOfPrefix(d[1..], rest);
    } else {
      assert d + rest == rest;
    }
  }

  /**
   * The integer of a number text is the value of its digits before the first
   * non-digit: a dot and whatever follows it are dropped.
   */
  lemma AtoiTruncates(n: nat, rest: string)
    requires |rest| == 0 || !IsNumber(rest[0])
    ensures Atoi(Decimal(n) + rest) == n
  {
    var s := Decimal(n) + rest;
    assert !IsSpace(s[0]) && s[0] != '-' && s[0] != '+';
    assert SpaceRun(s) == 0;
    DigitRunOfPrefix(Decimal(n), rest);
    assert s[..DigitRun(s)] == Decimal(n);
    DecimalRoundTrip(n);
  }

  /** A number token made by the lexer converts to the value of its leading digit run. */
  lemma NumberTokenValue(text: string)
    requires forall i :: 0 <= i < |text| ==> IsNumber(text[i]) || text[i] == '.'
    ensures ParseValue(Token(Number, text)) == Ok(Value(IntPayload(LeadingValue(text)), None))
    ensures (|text| == 0 || text[0] == '.') ==> LeadingValue(text) == 0
  {
    assert SpaceRun(text) == 0 by {
      if |text| > 0 { assert !IsSpace(text[0]); }
    }
    assert text[SpaceRun(text)..] == text;
  }

  /** Concrete instances: the fraction of 3.14 is dropped, and an empty text gives 0. */
  lemma NumberExamples()
    ensures ParseValue(Token(Number, "3.14")) == Ok(Value(IntPayload(3), None))
    ensures ParseValue(Token(Number, "")) == Ok(Value(IntPayload(0), None))
  {
    var s := "3.14";
    assert SpaceRun(s) == 0 by { assert !IsSpace(s[0]); }
    assert DigitRun(s) == 1 by {
      assert DigitRun(s[1..]) == 0 by { assert s[1..][0] == '.'; }
    }
    assert s[..1] == "3";
    assert DecimalValue("3") == 3 by { assert "3"[..0] == ""; }
  }
}
