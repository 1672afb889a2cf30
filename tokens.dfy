/** The token vocabulary of the lexer: the kinds a match can be classified
    as, the values a token carries, and the two fixed override tables (the
    keyword map and the operator-symbol map). */
module LexTokens {

  datatype Option<T> = None | Some(value: T)

  datatype Result<T, E> = Ok(value: T) | Err(error: E)

  /** Every kind name that occurs in the lexer. The first fourteen are the
      names of the rules of the rule table; the rest are the names a match
      is re-classified to by the keyword map and the operator-symbol map.
      All of them live in one space of names, as the kind strings do. */
  datatype Kind =
    | IntegerLiteral
    | FloatingPointLiteral
    | Equals
    | LessThanOrEqualTo
    | GreaterThanOrEqualTo
    | LessThan
    | GreaterThan
    | Assignment
    | End
    | Id
    | Op
    | Newline
    | Skip
    | Mismatch
    | LogicalAnd
    | LogicalOr
    | Addition
    | Subtraction
    | Multiplication
    | Division
    | Modulo
    | LeftParenthesis
    | RightParenthesis

  /** A token value: an integer for integer literals, the matched numeral
      text for floating-point literals, the matched text otherwise. */
  datatype Value = Int(n: int) | Float(numeral: string) | Text(text: string)

  datatype Token = Token(kind: Kind, value: Value)

  /** The one error of the lexer: a character that only the catch-all rule
      matches. */
  datatype LexError = Unexpected(ch: char)

  predicate IsDigit(c: char) { '0' <= c <= '9' }

  predicate IsLetter(c: char) { 'A' <= c <= 'Z' || 'a' <= c <= 'z' }

  predicate IsBlank(c: char) { c == ' ' || c == '\t' }

  predicate IsOpChar(c: char)
  {
    c == '+' || c == '-' || c == '*' || c == '/' || c == '%' || c == '(' || c == ')'
  }

  /** The value of one decimal digit. */
  function DigitValue(c: char): (d: int)
    requires IsDigit(c)
    ensures 0 <= d <= 9
    ensures (d + '0' as int) as char == c
  {
    c as int - '0' as int
  }

  /** The value of a string of decimal digits, read most significant digit
      first (the integer conversion of a digit run). */
  function NumeralValue(w: string): (n: nat)
    requires forall k :: 0 <= k < |w| ==> IsDigit(w[k])
    ensures |w| == 1 ==> n == DigitValue(w[0])
    ensures |w| == 1 ==> n <= 9
  {
    if w == [] then 0
    else NumeralValue(w[..|w| - 1]) * 10 + DigitValue(w[|w| - 1])
  }

  /** Reserved spellings that override the identifier kind. */
  const Keywords: map<string, Kind> := map["and" := LogicalAnd, "or" := LogicalOr]

  /** The reserved spellings are letter runs of two letters or more, each
      reserved for one of the two logical kinds. */
  lemma KeywordsAreLetterRuns()
    ensures forall w :: w in Keywords ==> |w| >= 2 && forall k :: 0 <= k < |w| ==> IsLetter(w[k])
    ensures forall w :: w in Keywords ==> Keywords[w] == LogicalAnd || Keywords[w] == LogicalOr
    ensures Keywords["and"] != Keywords["or"]
  {
  }

  /** The specific kind of a matched operator symbol (the match is one
      character, so the symbol is compared by that character); a symbol
      outside the seven keeps the generic kind. */
  function OpKind(sym: char): (k: Kind)
    ensures k == Op <==> !IsOpChar(sym)
    ensures IsOpChar(sym) ==> IsOperatorKind(k)
  {
    if sym == '+' then Addition
    else if sym == '-' then Subtraction
    else if sym == '*' then Multiplication
    else if sym == '/' then Division
    else if sym == '%' then Modulo
    else if sym == '(' then LeftParenthesis
    else if sym == ')' then RightParenthesis
    else Op
  }

  /** The seven specific operator kinds. */
  predicate IsOperatorKind(k: Kind)
  {
    k in {Addition, Subtraction, Multiplication, Division, Modulo, LeftParenthesis, RightParenthesis}
  }

  /** No two operator symbols share a kind. */
  lemma OpKindResolves(c: char, d: char)
    requires IsOpChar(c) && IsOpChar(d)
    ensures OpKind(c) == OpKind(d) <==> c == d
  {
  }
}
