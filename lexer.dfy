/**
 * The tokenizer of lab6/lexer.js. The functions below say token by token
 * what the lexer reads from its input; the class `Lexer` advances its
 * `position` field through the input and pushes onto its `tokens` field,
 * and each of its methods is proved to do what those functions say.
 */
module Lexing {
  import opened Wrappers

  datatype Kind = Keyword | Identifier | Number | Str | Operator | Punctuation

  /** The `type` field the source writes for each kind of token. */
  function KindName(k: Kind): string {
    match k
    case Keyword => "KEYWORD_TOKEN"
    case Identifier => "IDENTIFIER_TOKEN"
    case Number => "NUMBER_TOKEN"
    case Str => "STRING_TOKEN"
    case Operator => "OPERATOR_TOKEN"
    case Punctuation => "PUNCTUATION_TOKEN"
  }

  /** `{ type, value }`. */
  datatype Token = Token(kind: Kind, value: string)

  const Keywords: seq<string> := [
    "let", "if", "else", "elif", "resolve", "possible", "getOxidixngs",
    "getReducings", "show", "getMolecWeight", "getVolume", "getV", "isAcid", "isBase"
  ]

  const UnterminatedString := "Unterminated string literal"
  const UnexpectedCharacter := "Unexpected character: "

  /** The operator and punctuation values the lexer can emit. */
  const Operators: seq<string> := [">=", "<=", "==", "+", ">", "<", "="]
  const Punctuations: seq<string> := ["(", ")", "{", "}", ";", ","]

  // ---------------------------------------------------------------------------
  // Character classes.

  /** JavaScript's `\s`: the ASCII blanks, the Unicode space separators, line and paragraph separators and the byte-order mark. */
  predicate IsWhitespace(c: char) {
    || c == ' ' || c == '\t' || c == '\n' || c == '\U{000B}' || c == '\U{000C}' || c == '\r'
    || c == '\U{00A0}' || c == '\U{1680}' || ('\U{2000}' <= c <= '\U{200A}')
    || c == '\U{2028}' || c == '\U{2029}' || c == '\U{202F}' || c == '\U{205F}'
    || c == '\U{3000}' || c == '\U{FEFF}'
  }

  /** `[a-zA-Z]`. */
  predicate IsAlpha(c: char) {
    ('a' <= c <= 'z') || ('A' <= c <= 'Z')
  }

  /** `[0-9]`. */
  predicate IsDigit(c: char) {
    '0' <= c <= '9'
  }

  /** `[a-zA-Z0-9]`. */
  predicate IsAlphaNumeric(c: char) {
    IsAlpha(c) || IsDigit(c)
  }

  // ---------------------------------------------------------------------------
  // Where each scanning loop stops.

  /** `skipWhitespace`: the first position at or after `i` that is the end or not a blank. */
  function SkipSpaces(s: string, i: nat): (j: nat)
    requires i <= |s|
    ensures i <= j <= |s|
    ensures forall k :: i <= k < j ==> IsWhitespace(s[k])
    ensures j == |s| || !IsWhitespace(s[j])
    decreases |s| - i
  {
    if i < |s| && IsWhitespace(s[i]) then SkipSpaces(s, i + 1) else i
  }

  /** The loop of `tokenizeIdentifierOrKeyword`: the end of the `[a-zA-Z0-9]` run from `i`. */
  function WordEnd(s: string, i: nat): (j: nat)
    requires i <= |s|
    ensures i <= j <= |s|
    ensures forall k :: i <= k < j ==> IsAlphaNumeric(s[k])
    ensures j == |s| || !IsAlphaNumeric(s[j])
    decreases |s| - i
  {
    if i < |s| && IsAlphaNumeric(s[i]) then WordEnd(s, i + 1) else i
  }

  /** The loop of `tokenizeNumber`: the end of the digit run from `i`. */
  function DigitsEnd(s: string, i: nat): (j: nat)
    requires i <= |s|
    ensures i <= j <= |s|
    ensures forall k :: i <= k < j ==> IsDigit(s[k])
    ensures j == |s| || !IsDigit(s[j])
    decreases |s| - i
  {
    if i < |s| && IsDigit(s[i]) then DigitsEnd(s, i + 1) else i
  }

  /**
   * The loop of `tokenizeString`, from just after the opening quote: a
   * backslash skips the character after it, and the scan stops at a quote or
   * at (or, after a final backslash, one past) the end.
   */
  function StringEnd(s: string, i: nat): (j: nat)
    ensures i <= j
    ensures i <= |s| ==> j <= |s| + 1
    ensures j < |s| ==> s[j] == '"'
    decreases |s| + 2 - i
  {
    if i >= |s| || s[i] == '"' then i
    else if s[i] == '\\' then StringEnd(s, i + 2)
    else StringEnd(s, i + 1)
  }

  /**
   * A well-formed string body, defined independently of the scan: a sequence
   * of plain characters (neither quote nor backslash) and of backslashes each
   * followed by any character.
   */
  predicate Body(v: string)
    decreases |v|
  {
    || |v| == 0
    || (v[0] != '"' && v[0] != '\\' && Body(v[1..]))
    || (|v| >= 2 && v[0] == '\\' && Body(v[2..]))
  }

  // ---------------------------------------------------------------------------
  // One token.

  /** What one token-reading method produces: a token and the position after it, or the error it throws and where it stopped. */
  datatype Step = Emit(token: Token, next: nat) | Stop(error: string, at: nat)

  /** A word is a keyword when it is one of the fourteen words, else an identifier. */
  function WordToken(text: string): (t: Token)
    ensures t.value == text
    ensures t.kind == Keyword <==> text in Keywords
    ensures t.kind == Identifier <==> text !in Keywords
  {
    Token(if text in Keywords then Keyword else Identifier, text)
  }

  /** `tokenizeString` at the opening quote `s[i]`. */
  function StringStep(s: string, i: nat): Step
    requires i < |s|
  {
    var j := StringEnd(s, i + 1);
    if j < |s| then Emit(Token(Str, s[i + 1..j]), j + 1) else Stop(UnterminatedString, j)
  }

  /** `tokenizeSymbol` at `s[i]`. */
  function SymbolStep(s: string, i: nat): Step
    requires i < |s|
  {
    var ch := s[i];
    if (ch == '>' || ch == '<' || ch == '=') && i + 1 < |s| && s[i + 1] == '=' then
      Emit(Token(Operator, [ch, s[i + 1]]), i + 2)
    else if ch == '+' || ch == '>' || ch == '<' || ch == '=' then
      Emit(Token(Operator, [ch]), i + 1)
    else if ch == '(' || ch == ')' || ch == '{' || ch == '}' || ch == ';' || ch == ',' then
      Emit(Token(Punctuation, [ch]), i + 1)
    else
      Stop(UnexpectedCharacter + [ch], i + 1)
  }

  /** The token `tokenize` reads at a non-blank position `i`, chosen by its first character. */
  function Scan(s: string, i: nat): (r: Step)
    requires i < |s|
    ensures r.Emit? ==> i < r.next <= |s|
  {
    if IsAlpha(s[i]) then Emit(WordToken(s[i..WordEnd(s, i)]), WordEnd(s, i))
    else if IsDigit(s[i]) then Emit(Token(Number, s[i..DigitsEnd(s, i)]), DigitsEnd(s, i))
    else if s[i] == '"' then StringStep(s, i)
    else SymbolStep(s, i)
  }

  // ---------------------------------------------------------------------------
  // The whole input.

  /** The tokens pushed, the final position and the error thrown, if any. */
  datatype Run = Run(tokens: seq<Token>, position: nat, error: Option<string>)

  /** `tokenize` from position `i` with `acc` already pushed. */
  function Lex(s: string, i: nat, acc: seq<Token>): Run
    requires i <= |s|
    decreases |s| - i
  {
    var j := SkipSpaces(s, i);
    if j == |s| then Run(acc, j, None)
    else match Scan(s, j)
      case Emit(t, n) => Lex(s, n, acc + [t])
      case Stop(e, at) => Run(acc, at, Some(e))
  }

  /** Skipping blanks first changes nothing. */
  lemma LexSkip(s: string, i: nat, acc: seq<Token>)
    requires i <= |s|
    ensures Lex(s, SkipSpaces(s, i), acc) == Lex(s, i, acc)
  {
    var j := SkipSpaces(s, i);
    assert SkipSpaces(s, j) == j;
  }

  // ---------------------------------------------------------------------------
  // Properties.

  /** A blank produces no token: the lexer reads the same tokens from just after it. */
  lemma WhitespaceNoToken(s: string, i: nat, acc: seq<Token>)
    requires i < |s| && IsWhitespace(s[i])
    ensures Lex(s, i, acc) == Lex(s, i + 1, acc)
  {
    LexSkip(s, i + 1, acc);
  }

  /** An input of blanks only yields no token and no error. */
  lemma {:induction false} BlankInput(s: string, i: nat, acc: seq<Token>)
    requires i <= |s|
    requires forall k :: i <= k < |s| ==> IsWhitespace(s[k])
    ensures Lex(s, i, acc) == Run(acc, |s|, None)
    decreases |s| - i
  {
    if i < |s| {
      WhitespaceNoToken(s, i, acc);
      BlankInput(s, i + 1, acc);
    }
  }

  /**
   * A token starting with a letter is the maximal `[a-zA-Z0-9]` run from
   * there, a keyword exactly when it is one of the fourteen words.
   */
  lemma ScanWord(s: string, i: nat)
    requires i < |s| && IsAlpha(s[i])
    ensures Scan(s, i).Emit?
    ensures var t, n := Scan(s, i).token, Scan(s, i).next;
      && t.value == s[i..n]
      && (forall k :: i <= k < n ==> IsAlphaNumeric(s[k]))
      && (n == |s| || !IsAlphaNumeric(s[n]))
      && (t.kind == Keyword <==> t.value in Keywords)
      && (t.kind == Identifier <==> t.value !in Keywords)
  {
  }

  /** A token starting with a digit is the maximal digit run from there. */
  lemma ScanNumber(s: string, i: nat)
    requires i < |s| && IsDigit(s[i])
    ensures Scan(s, i).Emit?
    ensures var t, n := Scan(s, i).token, Scan(s, i).next;
      && t == Token(Number, s[i..n])
      && (forall k :: i <= k < n ==> IsDigit(s[k]))
      && (n == |s| || !IsDigit(s[n]))
  {
  }

  /** Where the string scan stops at a quote, what it passed over is a well-formed body. */
  lemma {:induction false} StringEndBody(s: string, i: nat)
    requires i <= |s| && StringEnd(s, i) < |s|
    ensures Body(s[i..StringEnd(s, i)])
    decreases |s| - i
  {
    var j := StringEnd(s, i);
    if s[i] == '"' {
      assert s[i..j] == [];
    } else if s[i] == '\\' {
      StringEndBody(s, i + 2);
      assert s[i..j][2..] == s[i + 2..j];
    } else {
      StringEndBody(s, i + 1);
      assert s[i..j][1..] == s[i + 1..j];
    }
  }

  /** A well-formed body followed by a quote is exactly where the string scan stops. */
  lemma {:induction false} BodyStringEnd(s: string, i: nat, j: nat)
    requires i <= j < |s| && s[j] == '"' && Body(s[i..j])
    ensures StringEnd(s, i) == j
    decreases j - i
  {
    if i < j {
      var v := s[i..j];
      assert v[0] == s[i];
      if s[i] == '\\' {
        assert v[2..] == s[i + 2..j];
        BodyStringEnd(s, i + 2, j);
      } else {
        assert v[1..] == s[i + 1..j];
        BodyStringEnd(s, i + 1, j);
      }
    }
  }

  /**
   * At a quote, the lexer emits the raw text up to the first quote not taken
   * by a backslash, and throws "Unterminated string literal" exactly when
   * there is no such quote.
   */
  lemma ScanString(s: string, i: nat)
    requires i < |s| && s[i] == '"'
    ensures Scan(s, i).Emit? <==> exists j :: i < j < |s| && s[j] == '"' && Body(s[i + 1..j])
    ensures Scan(s, i).Emit? ==>
      var n := Scan(s, i).next;
      i + 2 <= n && s[n - 1] == '"' && Scan(s, i).token == Token(Str, s[i + 1..n - 1]) && Body(s[i + 1..n - 1])
    ensures Scan(s, i).Stop? ==> Scan(s, i).error == UnterminatedString
  {
    var j := StringEnd(s, i + 1);
    if j < |s| {
      StringEndBody(s, i + 1);
    } else {
      if exists k :: i < k < |s| && s[k] == '"' && Body(s[i + 1..k]) {
        var k :| i < k < |s| && s[k] == '"' && Body(s[i + 1..k]);
        BodyStringEnd(s, i + 1, k);
        assert false;
      }
    }
  }

  lemma Quoted(v: string, rest: string, s: string)
    requires s == ['"'] + v + ['"'] + rest
    ensures |s| == |v| + 2 + |rest| && s[0] == '"' && s[1..|v| + 1] == v && s[|v| + 1] == '"'
  {
  }

  lemma ScanQuote(s: string)
    requires 0 < |s| && s[0] == '"'
    ensures Scan(s, 0) == StringStep(s, 0)
  {
  }

  /** Any well-formed body between quotes comes back as the value of one string token. */
  lemma StringRoundTrip(v: string, rest: string)
    requires Body(v)
    ensures var s := ['"'] + v + ['"'] + rest;
      Scan(s, 0) == Emit(Token(Str, v), |v| + 2)
  {
    var s := ['"'] + v + ['"'] + rest;
    Quoted(v, rest, s);
    ScanQuoted(s, v);
  }

  lemma ScanQuoted(s: string, v: string)
    requires |s| >= |v| + 2 && s[0] == '"' && s[1..|v| + 1] == v && s[|v| + 1] == '"' && Body(v)
    ensures Scan(s, 0) == Emit(Token(Str, v), |v| + 2)
  {
    BodyStringEnd(s, 1, |v| + 1);
    ScanQuote(s);
  }

  /**
   * Any other character: `>=`, `<=` and `==` are two-character operators,
   * `+ > < =` one-character ones, `( ) { } ; ,` punctuation, and everything
   * else throws "Unexpected character: " followed by it.
   */
  lemma ScanSymbol(s: string, i: nat)
    requires i < |s| && !IsAlpha(s[i]) && !IsDigit(s[i]) && s[i] != '"'
    ensures var r := Scan(s, i);
      && (r.Emit? ==>
            && r.token.value == s[i..r.next]
            && (r.token.kind == Operator ==> r.token.value in Operators)
            && (r.token.kind == Punctuation ==> r.token.value in Punctuations)
            && (r.token.kind == Operator || r.token.kind == Punctuation))
      && (r.Emit? && r.next == i + 2 <==> i + 1 < |s| && s[i..i + 2] in [">=", "<=", "=="])
      && (r.Stop? <==> s[i..i + 1] !in Operators + Punctuations)
      && (r.Stop? ==> r == Stop(UnexpectedCharacter + [s[i]], i + 1))
  {
    var r := Scan(s, i);
    assert s[i..i + 1] == [s[i]];
    if i + 1 < |s| {
      assert s[i..i + 2] == [s[i], s[i + 1]];
    }
    if r.Emit? {
      assert r.token.value == s[i..r.next];
    }
  }

  /** Tokens are only ever appended: what `tokenize` returns is what was there, then the new tokens in input order. */
  lemma {:induction false} LexAppends(s: string, i: nat, acc: seq<Token>)
    requires i <= |s|
    ensures Lex(s, i, acc).tokens == acc + Lex(s, i, []).tokens
    ensures Lex(s, i, acc).position == Lex(s, i, []).position
    ensures Lex(s, i, acc).error == Lex(s, i, []).error
    decreases |s| - i
  {
    hide Lex, Scan, SkipSpaces;
    var j := SkipSpaces(s, i);
    if j < |s| && Scan(s, j).Emit? {
      var t, n := Scan(s, j).token, Scan(s, j).next;
      LexEmits(s, i, acc);
      LexEmits(s, i, []);
      assert [] + [t] == [t];
      LexAppends(s, n, acc + [t]);
      LexAppends(s, n, [t]);
    } else {
      LexStops(s, i, acc);
      LexStops(s, i, []);
    }
  }

  lemma LexEmits(s: string, i: nat, acc: seq<Token>)
    requires i <= |s| && SkipSpaces(s, i) < |s| && Scan(s, SkipSpaces(s, i)).Emit?
    ensures var r := Scan(s, SkipSpaces(s, i)); Lex(s, i, acc) == Lex(s, r.next, acc + [r.token])
  {
  }

  lemma LexStops(s: string, i: nat, acc: seq<Token>)
    requires i <= |s| && !(SkipSpaces(s, i) < |s| && Scan(s, SkipSpaces(s, i)).Emit?)
    ensures Lex(s, i, acc).tokens == acc
    ensures Lex(s, i, acc).position == Lex(s, i, []).position && Lex(s, i, acc).error == Lex(s, i, []).error
  {
  }

  // ---------------------------------------------------------------------------
  // The class.

  class Lexer {
    var input: string
    var position: nat
    var tokens: seq<Token>

    /** Between tokens the position is inside the input or at its end. */
    ghost predicate Valid()
      reads this
    {
      position <= |input|
    }

    constructor(input: string)
      ensures this.input == input && position == 0 && tokens == [] && Valid()
    {
      this.input := input;
      position := 0;
      tokens := [];
    }

    /** `isAtEnd`. */
    function IsAtEnd(): bool
      reads this
    {
      position >= |input|
    }

    /** `peek`: the character at the position, `undefined` past the end. */
    function Peek(): Option<char>
      reads this
    {
      if position < |input| then Some(input[position]) else None
    }

    /** `advance`: the character at the position, and one step on. */
    method Advance() returns (c: Option<char>)
      modifies this
      ensures c == old(Peek()) && position == old(position) + 1
      ensures input == old(input) && tokens == old(tokens)
    {
      c := Peek();
      position := position + 1;
    }

    /** `tokenize`: the tokens, or the error that one of the token readers throws. */
    method Tokenize() returns (r: Result<seq<Token>>)
      requires Valid()
      modifies this
      ensures var run := Lex(old(input), old(position), old(tokens));
        && tokens == run.tokens && position == run.position
        && r == (if run.error.None? then Ok(tokens) else Err(run.error.value))
      ensures input == old(input)
    {
      while !IsAtEnd()
        invariant Valid() && input == old(input)
        invariant Lex(input, position, tokens) == Lex(old(input), old(position), old(tokens))
        decreases |input| - position
      {
        LexSkip(input, position, tokens);
        SkipWhitespace();
        if IsAtEnd() {
          break;
        }
        var ch := input[position];
        if IsAlpha(ch) {
          TokenizeIdentifierOrKeyword();
        } else if IsDigit(ch) {
          TokenizeNumber();
        } else if ch == '"' {
          var o := TokenizeString();
          if o.Fail? {
            return Err(o.error);
          }
        } else {
          var o := TokenizeSymbol();
          if o.Fail? {
            return Err(o.error);
          }
        }
      }
      return Ok(tokens);
    }

    /** `skipWhitespace`. */
    method SkipWhitespace()
      requires Valid()
      modifies this
      ensures position == SkipSpaces(old(input), old(position)) && Valid()
      ensures input == old(input) && tokens == old(tokens)
    {
      while !IsAtEnd() && IsWhitespace(input[position])
        invariant input == old(input) && tokens == old(tokens)
        invariant old(position) <= position <= |input|
        invariant SkipSpaces(input, position) == SkipSpaces(input, old(position))
        decreases |input| - position
      {
        var _ := Advance();
      }
    }

    /** `tokenizeIdentifierOrKeyword`. */
    method TokenizeIdentifierOrKeyword()
      requires Valid()
      modifies this
      ensures var n := WordEnd(old(input), old(position));
        position == n && tokens == old(tokens) + [WordToken(old(input)[old(position)..n])]
      ensures input == old(input)
    {
      var start := position;
      while !IsAtEnd() && IsAlphaNumeric(input[position])
        invariant input == old(input) && tokens == old(tokens)
        invariant start <= position <= |input|
        invariant WordEnd(input, position) == WordEnd(input, start)
        decreases |input| - position
      {
        var _ := Advance();
      }
      var text := input[start..position];
      if text in Keywords {
        tokens := tokens + [Token(Keyword, text)];
      } else {
        tokens := tokens + [Token(Identifier, text)];
      }
    }

    /** `tokenizeNumber`. */
    method TokenizeNumber()
      requires Valid()
      modifies this
      ensures var n := DigitsEnd(old(input), old(position));
        position == n && tokens == old(tokens) + [Token(Number, old(input)[old(position)..n])]
      ensures input == old(input)
    {
      var start := position;
      while !IsAtEnd() && IsDigit(input[position])
        invariant input == old(input) && tokens == old(tokens)
        invariant start <= position <= |input|
        invariant DigitsEnd(input, position) == DigitsEnd(input, start)
        decreases |input| - position
      {
        var _ := Advance();
      }
      tokens := tokens + [Token(Number, input[start..position])];
    }

    /** `tokenizeString`, called at the opening quote. */
    method TokenizeString() returns (r: Outcome)
      requires position < |input|
      modifies this
      ensures match StringStep(old(input), old(position))
        case Emit(t, n) => r == Pass && position == n && tokens == old(tokens) + [t]
        case Stop(e, at) => r == Fail(e) && position == at && tokens == old(tokens)
      ensures input == old(input)
    {
      var _ := Advance();
      var start := position;
      while !IsAtEnd() && input[position] != '"'
        invariant input == old(input) && tokens == old(tokens)
        invariant start <= position <= |input| + 1
        invariant StringEnd(input, position) == StringEnd(input, start)
        decreases |input| + 2 - position
      {
        if input[position] == '\\' {
          var _ := Advance();
        }
        var _ := Advance();
      }
      if IsAtEnd() {
        return Fail(UnterminatedString);
      }
      var value := input[start..position];
      var _ := Advance();
      tokens := tokens + [Token(Str, value)];
      return Pass;
    }

    /** `tokenizeSymbol`, called at a character that starts no word, number or string. */
    method TokenizeSymbol() returns (r: Outcome)
      requires position < |input|
      modifies this
      ensures match SymbolStep(old(input), old(position))
        case Emit(t, n) => r == Pass && position == n && tokens == old(tokens) + [t]
        case Stop(e, at) => r == Fail(e) && position == at && tokens == old(tokens)
      ensures input == old(input)
    {
      var c := Advance();
      var ch := c.value;
      if (ch == '>' || ch == '<' || ch == '=') && Peek() == Some('=') {
        var d := Advance();
        tokens := tokens + [Token(Operator, [ch, d.value])];
        return Pass;
      }
      if ch == '+' || ch == '>' || ch == '<' || ch == '=' {
        tokens := tokens + [Token(Operator, [ch])];
        return Pass;
      } else if ch == '(' || ch == ')' || ch == '{' || ch == '}' || ch == ';' || ch == ',' {
        tokens := tokens + [Token(Punctuation, [ch])];
        return Pass;
      }
      return Fail(UnexpectedCharacter + [ch]);
    }
  }
}
